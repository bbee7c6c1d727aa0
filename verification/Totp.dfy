/**
 The TOTP responder of `crates/spt-auth/src/totp.rs` (section 5.3 of RFC 4226,
 sections 4.2 and 5.2 of RFC 6238).

 HMAC is any function with the digest length of its hash. Machine integers are
 written out: unsigned 32-bit shifts, the wrapping cast of the step to i64, and
 the arithmetic that aborts on overflow.
 */
module Totp {

  import opened Basics

  type Byte = x: nat | x < 256

  const TWO_32: nat := 0x1_0000_0000
  const TWO_63: nat := 0x8000_0000_0000_0000
  const TWO_64: nat := 0x1_0000_0000_0000_0000

  type U64 = x: nat | x < TWO_64

  type I32 = x: int | -0x8000_0000 <= x < 0x8000_0000

  const I32_MIN: I32 := -0x8000_0000

  datatype Algo = Sha1 | Sha256 | Sha512

  function DigestLength(a: Algo): nat
  {
    match a
    case Sha1 => 20
    case Sha256 => 32
    case Sha512 => 64
  }

  type Mac = (Algo, seq<Byte>, seq<Byte>) -> seq<Byte>

  ghost predicate IsMac(mac: Mac)
  {
    forall a, key, msg :: |mac(a, key, msg)| == DigestLength(a)
  }

  // ----- Bit operations on unsigned integers -----

  function And(a: nat, b: nat): nat
  {
    if a == 0 || b == 0 then 0
    else (if a % 2 == 1 && b % 2 == 1 then 1 else 0) + 2 * And(a / 2, b / 2)
  }

  function Or(a: nat, b: nat): nat
  {
    if a == 0 then b
    else if b == 0 then a
    else (if a % 2 == 1 || b % 2 == 1 then 1 else 0) + 2 * Or(a / 2, b / 2)
  }

  /** Left shift of a u32. */
  function Shl(a: nat, k: nat): nat { a * Pow2(k) % TWO_32 }

  lemma AndOdd(a: nat, m: nat)
    ensures And(a, 2 * m + 1) == a % 2 + 2 * And(a / 2, m)
  {
    assert (2 * m + 1) / 2 == m && (2 * m + 1) % 2 == 1;
  }

  lemma HalveMod(a: nat, p: nat)
    requires p >= 1
    ensures a % (2 * p) == a % 2 + 2 * (a / 2 % p)
  {
    var h := a / 2;
    var q, r := h / p, a % 2 + 2 * (h % p);
    assert h == p * q + h % p;
    assert 2 * p * q == 2 * (p * q);
    ModUnique(a, 2 * p, q, r);
  }

  lemma MulGap(m: nat, x: nat, y: nat)
    requires x < y
    ensures m * y >= m * x + m
  {
    Distribute(m, x, 1);
    Distribute(m, x + 1, y - x - 1);
  }

  lemma ModUnique(a: nat, m: nat, q: nat, r: nat)
    requires r < m && a == m * q + r
    ensures a % m == r && a / m == q
  {
    var q' := a / m;
    assert a == m * q' + a % m;
    if q < q' {
      MulGap(m, q, q');
    } else if q' < q {
      MulGap(m, q', q);
    }
  }

  /** Masking with the low `k` bits is the remainder modulo 2^k. */
  lemma {:induction false} MaskLow(a: nat, k: nat)
    ensures And(a, Pow2(k) - 1) == a % Pow2(k)
  {
    if k > 0 {
      MaskLow(a / 2, k - 1);
      MaskDoubles(a, Pow2(k - 1), Pow2(k));
    }
  }

  lemma MaskDoubles(a: nat, p: nat, m: nat)
    requires p >= 1 && m == 2 * p && And(a / 2, p - 1) == a / 2 % p
    ensures And(a, m - 1) == a % m
  {
    HalveMod(a, p);
    AndOdd(a, p - 1);
  }

  lemma OrDoubles(x: nat, y: nat, b: nat)
    requires y == 2 * x && Or(x, b / 2) == x + b / 2
    ensures Or(y, b) == y + b
  {
  }

  /** Or-ing a shifted value with one that fits below the shift adds them. */
  lemma {:induction false} OrDisjoint(a: nat, b: nat, k: nat)
    requires b < Pow2(k)
    ensures Or(a * Pow2(k), b) == a * Pow2(k) + b
  {
    if k > 0 {
      var x := a * Pow2(k - 1);
      OrDisjoint(a, b / 2, k - 1);
      Distribute(a, Pow2(k - 1), Pow2(k - 1));
      OrDoubles(x, a * Pow2(k), b);
    }
  }

  // ----- Dynamic truncation -----

  function BigEndian(bytes: seq<Byte>): nat
  {
    if bytes == [] then 0 else BigEndian(bytes[..|bytes| - 1]) * 256 + bytes[|bytes| - 1]
  }

  lemma MaskIs(b: nat, k: nat, p: nat, m: nat)
    requires p == Pow2(k) && m == p - 1
    ensures And(b, m) == b % p
  {
    MaskLow(b, k);
  }

  /** A byte masked with 0x0f, 0x7f or 0xff. */
  function Low4(b: Byte): (r: nat)
    ensures r == b % 16
  {
    Powers();
    MaskIs(b, 4, 16, 0x0f);
    And(b, 0x0f)
  }

  function Low7(b: Byte): (r: nat)
    ensures r == b % 128
  {
    Powers();
    MaskIs(b, 7, 128, 0x7f);
    And(b, 0x7f)
  }

  function Low8(b: Byte): (r: nat)
    ensures r == b % 256
  {
    Powers();
    MaskIs(b, 8, 256, 0xff);
    And(b, 0xff)
  }

  lemma Powers()
    ensures Pow2(4) == 16 && Pow2(7) == 128 && Pow2(8) == 256
    ensures Pow2(16) == 0x1_0000 && Pow2(24) == 0x100_0000
  {
  }

  function Offset(digest: seq<Byte>): nat
    requires |digest| > 0
  {
    Low4(digest[|digest| - 1])
  }

  lemma OffsetFits(digest: seq<Byte>)
    requires |digest| >= 20
    ensures Offset(digest) + 3 < |digest| && Offset(digest) == digest[|digest| - 1] % 16
  {
  }

  /** The shifted and or-ed bytes. */
  function Assemble(b0: Byte, b1: Byte, b2: Byte, b3: Byte): nat
  {
    Join(Low7(b0), Low8(b1), Low8(b2), Low8(b3))
  }

  function Join(r: nat, x: nat, y: nat, z: nat): nat
  {
    Or(Or(Or(Shl(r, 24), Shl(x, 16)), Shl(y, 8)), z)
  }

  lemma ShlFits(a: nat, k: nat, p: nat)
    requires p == Pow2(k) && a * p < TWO_32
    ensures Shl(a, k) == a * p
  {
  }

  lemma Shifts(a: nat)
    requires a < 256
    ensures Shl(a, 8) == a * 0x100 && Shl(a, 16) == a * 0x1_0000
    ensures a < 128 ==> Shl(a, 24) == a * 0x100_0000
  {
    Powers();
    ShlFits(a, 8, 0x100);
    ShlFits(a, 16, 0x1_0000);
    if a < 128 {
      ShlFits(a, 24, 0x100_0000);
    }
  }

  lemma Ors(a: nat, b: nat)
    ensures b < 0x100 ==> Or(a * 0x100, b) == a * 0x100 + b
    ensures b < 0x1_0000 ==> Or(a * 0x1_0000, b) == a * 0x1_0000 + b
    ensures b < 0x100_0000 ==> Or(a * 0x100_0000, b) == a * 0x100_0000 + b
  {
    Powers();
    if b < 0x100 {
      OrDisjoint(a, b, 8);
    }
    if b < 0x1_0000 {
      OrDisjoint(a, b, 16);
    }
    if b < 0x100_0000 {
      OrDisjoint(a, b, 24);
    }
  }

  lemma AssembleSums(b0: Byte, b1: Byte, b2: Byte, b3: Byte)
    ensures Assemble(b0, b1, b2, b3) == b0 % 128 * 0x100_0000 + b1 * 0x1_0000 + b2 * 0x100 + b3
  {
    assert Low7(b0) == b0 % 128;
    ByteKept(b1);
    ByteKept(b2);
    ByteKept(b3);
    JoinSums(b0 % 128, b1, b2, b3);
  }

  lemma ByteKept(b: Byte)
    ensures Low8(b) == b
  {
    SmallRemainder(b, Low8(b));
  }

  lemma SmallRemainder(b: nat, r: nat)
    requires b < 256 && r == b % 256
    ensures r == b
  {
  }

  lemma JoinSums(r: nat, x: nat, y: nat, z: nat)
    requires r < 128 && x < 256 && y < 256 && z < 256
    ensures Join(r, x, y, z) == r * 0x100_0000 + x * 0x1_0000 + y * 0x100 + z
  {
    var rx, rxy := r * 0x100 + x, r * 0x1_0000 + x * 0x100 + y;
    assert Or(Shl(r, 24), Shl(x, 16)) == rx * 0x1_0000 by {
      Shifts(r);
      Shifts(x);
      Ors(r, x * 0x1_0000);
    }
    assert Or(rx * 0x1_0000, Shl(y, 8)) == rxy * 0x100 by {
      Shifts(y);
      Ors(rx, y * 0x100);
    }
    Ors(rxy, z);
  }

  function Truncate(digest: seq<Byte>): nat
    requires |digest| >= 20
  {
    OffsetFits(digest);
    var o := Offset(digest);
    Assemble(digest[o], digest[o + 1], digest[o + 2], digest[o + 3])
  }

  /** The low 31 bits of the four big-endian bytes at the offset that the low four
      bits of the last byte name (section 5.3 of RFC 4226). */
  lemma TruncateIs31BitBigEndian(digest: seq<Byte>)
    requires |digest| >= 20
    ensures var o := digest[|digest| - 1] % 16;
            && o + 4 <= |digest|
            && Truncate(digest) == BigEndian(digest[o..o + 4]) % 0x8000_0000
            && Truncate(digest) < 0x8000_0000
  {
    OffsetFits(digest);
    var o := Offset(digest);
    AssembleSums(digest[o], digest[o + 1], digest[o + 2], digest[o + 3]);
    FourBytes(digest[o], digest[o + 1], digest[o + 2], digest[o + 3]);
    assert digest[o..o + 4] == [digest[o], digest[o + 1], digest[o + 2], digest[o + 3]];
  }

  lemma FourBytes(b0: nat, b1: nat, b2: nat, b3: nat)
    requires b0 < 256 && b1 < 256 && b2 < 256 && b3 < 256
    ensures BigEndian([b0, b1, b2, b3]) == b0 * 0x100_0000 + b1 * 0x1_0000 + b2 * 0x100 + b3
    ensures BigEndian([b0, b1, b2, b3]) % 0x8000_0000 == b0 % 128 * 0x100_0000 + b1 * 0x1_0000 + b2 * 0x100 + b3
  {
    var b: seq<Byte> := [b0, b1, b2, b3];
    assert b[..3] == [b0, b1, b2] && b[..3][..2] == [b0, b1] && b[..3][..2][..1] == [b0];
    assert BigEndian(b[..3][..2][..1]) == b0 by { assert [b0][..0] == []; }
    assert BigEndian(b[..3][..2]) == b0 * 256 + b1;
    assert BigEndian(b[..3]) == (b0 * 256 + b1) * 256 + b2;
  }

  /** `u64::to_be_bytes`, `n` bytes wide. */
  function ToBeBytes(x: nat, n: nat): (bytes: seq<Byte>)
    ensures |bytes| == n
  {
    if n == 0 then [] else ToBeBytes(x / 256, n - 1) + [x % 256]
  }

  function Pow256(n: nat): nat
  {
    if n == 0 then 1 else 256 * Pow256(n - 1)
  }

  lemma {:induction false} BeBytesRoundTrip(x: nat, n: nat)
    requires x < Pow256(n)
    ensures BigEndian(ToBeBytes(x, n)) == x
  {
    if n > 0 {
      BeBytesRoundTrip(x / 256, n - 1);
      var bytes := ToBeBytes(x, n);
      assert bytes[..n - 1] == ToBeBytes(x / 256, n - 1);
    }
  }

  // ----- Zero-padded decimal -----

  function Pow10(k: nat): (r: nat)
    ensures r >= 1
  {
    if k == 0 then 1 else 10 * Pow10(k - 1)
  }

  function Digit(d: nat): char
    requires d < 10
  {
    '0' + d as char
  }

  predicate IsDigit(c: char) { '0' <= c <= '9' }

  function Decimal(n: nat): string
  {
    if n < 10 then [Digit(n)] else Decimal(n / 10) + [Digit(n % 10)]
  }

  /** `{:0width$}`. */
  function Padded(s: string, width: nat): string
    decreases if |s| < width then width - |s| else 0
  {
    if |s| >= width then s else Padded("0" + s, width)
  }

  predicate AllDigits(s: string) { forall i :: 0 <= i < |s| ==> IsDigit(s[i]) }

  function Value(s: string): nat
    requires AllDigits(s)
  {
    if s == [] then 0 else Value(s[..|s| - 1]) * 10 + (s[|s| - 1] - '0') as nat
  }

  /** Reading digit by digit, the characters being those of the decimal digits. */
  lemma ValueReads(s: string, d: nat)
    requires AllDigits(s) && d < 10
    ensures Value("") == 0
    ensures AllDigits(s + ["0123456789"[d]]) && Value(s + ["0123456789"[d]]) == Value(s) * 10 + d
  {
    var c := "0123456789"[d];
    assert c == '0' + d as char;
    assert (s + [c])[..|s|] == s;
  }

  lemma {:induction false} DecimalReads(n: nat, width: nat)
    requires width >= 1 && n < Pow10(width)
    ensures 1 <= |Decimal(n)| <= width && AllDigits(Decimal(n)) && Value(Decimal(n)) == n
  {
    if n >= 10 {
      assert width > 1;
      DecimalReads(n / 10, width - 1);
      var s := Decimal(n);
      assert s[..|s| - 1] == Decimal(n / 10);
    } else {
      assert Decimal(n)[..0] == [];
    }
  }

  lemma {:induction false} LeadingZero(s: string)
    requires AllDigits(s)
    ensures AllDigits("0" + s) && Value("0" + s) == Value(s)
  {
    var z := "0" + s;
    if s == [] {
      assert z[..0] == [];
    } else {
      LeadingZero(s[..|s| - 1]);
      assert z[..|z| - 1] == "0" + s[..|s| - 1];
    }
  }

  lemma {:induction false} PaddedReads(s: string, width: nat)
    requires AllDigits(s) && |s| <= width
    ensures |Padded(s, width)| == width && AllDigits(Padded(s, width)) && Value(Padded(s, width)) == Value(s)
    decreases width - |s|
  {
    if |s| < width {
      LeadingZero(s);
      PaddedReads("0" + s, width);
    }
  }

  // ----- Codes -----

  function HotpAt(mac: Mac, secret: seq<Byte>, counter: nat, digits: nat, algo: Algo): string
    requires |mac(algo, secret, ToBeBytes(counter, 8))| == DigestLength(algo)
  {
    Padded(Decimal(Truncate(mac(algo, secret, ToBeBytes(counter, 8))) % Pow10(digits)), digits)
  }

  /** A code has exactly `digits` decimal characters and reads back as the 31-bit
      value modulo 10^digits; for digits up to 9 that modulus fits a u32. */
  lemma CodeReadsBack(mac: Mac, secret: seq<Byte>, counter: nat, digits: nat, algo: Algo)
    requires IsMac(mac) && 1 <= digits <= 9
    ensures Pow10(digits) < TWO_32
    ensures var code := HotpAt(mac, secret, counter, digits, algo);
            && |code| == digits && AllDigits(code)
            && Value(code) == Truncate(mac(algo, secret, ToBeBytes(counter, 8))) % Pow10(digits)
  {
    var otp := Truncate(mac(algo, secret, ToBeBytes(counter, 8))) % Pow10(digits);
    DecimalReads(otp, digits);
    PaddedReads(Decimal(otp), digits);
    Pow10Monotone(digits, 9);
    assert Pow10(9) == 1_000_000_000;
  }

  lemma {:induction false} Pow10Monotone(a: nat, b: nat)
    requires a <= b
    ensures Pow10(a) <= Pow10(b)
  {
    if a < b {
      Pow10Monotone(a, b - 1);
    }
  }

  datatype Result<T> = Ok(value: T) | InvalidConfig | Overflow

  predicate GoodConfig(timeStep: U64, digits: nat) { timeStep != 0 && 1 <= digits <= 9 }

  /** The time step that `now` falls in. */
  function StepAt(now: U64, timeStep: U64): (step: U64)
    requires timeStep != 0
    ensures step <= now
    ensures step * timeStep <= now < step * timeStep + timeStep
  {
    DivideShrinks(now, timeStep);
    StepIsFloor(now, timeStep, now / timeStep);
    now / timeStep
  }

  /** The step is the number of whole step lengths that have passed. */
  lemma StepIsFloor(now: nat, timeStep: nat, q: nat)
    requires timeStep != 0 && q == now / timeStep
    ensures q * timeStep <= now < q * timeStep + timeStep
  {
    assert now == timeStep * q + now % timeStep;
  }

  lemma StepIsUnique(now: U64, timeStep: U64, k: nat)
    requires timeStep != 0 && k * timeStep <= now < k * timeStep + timeStep
    ensures StepAt(now, timeStep) == k
  {
    ModUnique(now, timeStep, k, now - k * timeStep);
  }

  lemma DivideShrinks(x: nat, d: nat)
    requires d != 0
    ensures x / d <= x
  {
    var q := x / d;
    assert x == d * q + x % d;
    MulMonotone(1, d, q);
  }

  function Generate(mac: Mac, secret: seq<Byte>, timeStep: U64, digits: nat, algo: Algo, now: U64): Result<string>
    requires IsMac(mac)
  {
    if !GoodConfig(timeStep, digits) then InvalidConfig
    else Ok(HotpAt(mac, secret, StepAt(now, timeStep), digits, algo))
  }

  /** A generated code is that of the one step `t` falls in; no step length, or a number
      of digits outside 1 to 9, is an invalid configuration. */
  lemma GeneratesStepCode(mac: Mac, secret: seq<Byte>, timeStep: U64, digits: nat, algo: Algo, t: U64, k: nat)
    requires IsMac(mac) && (timeStep != 0 ==> k * timeStep <= t < k * timeStep + timeStep)
    ensures Generate(mac, secret, timeStep, digits, algo, t)
            == if timeStep == 0 || digits < 1 || digits > 9 then InvalidConfig
               else Ok(HotpAt(mac, secret, k, digits, algo))
  {
    if timeStep != 0 {
      StepIsUnique(t, timeStep, k);
    }
  }

  /** The digest lengths of the three hashes. */
  lemma MacLengths(mac: Mac, key: seq<Byte>, msg: seq<Byte>)
    requires IsMac(mac)
    ensures |mac(Sha1, key, msg)| == 20 && |mac(Sha256, key, msg)| == 32 && |mac(Sha512, key, msg)| == 64
  {
  }

  /** `as i64`. */
  function WrapI64(x: U64): int { if x < TWO_63 then x else x - TWO_64 }

  function Abs(x: int): nat { if x < 0 then -x else x }

  predicate FitsI64(x: int) { 0 - TWO_63 <= x < TWO_63 }

  predicate Within(center: int, skew: nat, step: nat) { center - skew <= step <= center + skew }

  /** `code` is the code of some non-negative step within `skew` of `center`. */
  ghost predicate InWindow(mac: Mac, secret: seq<Byte>, code: string, digits: nat, algo: Algo, center: int, skew: nat)
    requires IsMac(mac)
  {
    exists step: nat :: Within(center, skew, step) && HotpAt(mac, secret, step, digits, algo) == code
  }

  /** Some step of the window leaves the i64 range, or the skew has no absolute value. */
  predicate WindowOverflows(center: int, skewSteps: I32)
  {
    skewSteps == I32_MIN || !FitsI64(center - Abs(skewSteps)) || !FitsI64(center + Abs(skewSteps))
  }

  method Verify(mac: Mac, secret: seq<Byte>, code: string, timeStep: U64, digits: nat, algo: Algo, now: U64,
                skewSteps: I32)
    returns (r: Result<bool>)
    requires IsMac(mac)
    ensures r == InvalidConfig <==> timeStep == 0 || digits < 1 || digits > 9
    ensures r == Overflow <==>
            && GoodConfig(timeStep, digits) && |code| == digits
            && WindowOverflows(WrapI64(StepAt(now, timeStep)), skewSteps)
    ensures r.Ok? ==>
              (r.value <==> InWindow(mac, secret, code, digits, algo, WrapI64(StepAt(now, timeStep)), Abs(skewSteps)))
  {
    if timeStep == 0 {
      return InvalidConfig;
    }
    if !(1 <= digits <= 9) {
      return InvalidConfig;
    }
    if |code| != digits {
      WrongLengthNeverMatches(mac, secret, code, digits, algo, WrapI64(StepAt(now, timeStep)), Abs(skewSteps));
      return Ok(false);
    }
    var nowStep := WrapI64(StepAt(now, timeStep));
    if skewSteps == I32_MIN {
      return Overflow;
    }
    var expected := (step: nat) => HotpAt(mac, secret, step, digits, algo);
    r := Scan(expected, code, nowStep, Abs(skewSteps));
    assert forall step: nat :: expected(step) == HotpAt(mac, secret, step, digits, algo);
  }

  lemma WrongLengthNeverMatches(mac: Mac, secret: seq<Byte>, code: string, digits: nat, algo: Algo, center: int,
                                skew: nat)
    requires IsMac(mac) && 1 <= digits <= 9 && |code| != digits
    ensures !InWindow(mac, secret, code, digits, algo, center, skew)
  {
    if step: nat :| Within(center, skew, step) && HotpAt(mac, secret, step, digits, algo) == code {
      CodeReadsBack(mac, secret, step, digits, algo);
    }
  }

  /** The loop over `-skew..=skew`; it never stops early on a match. */
  method Scan(expected: nat -> string, code: string, nowStep: int, skew: nat) returns (r: Result<bool>)
    requires FitsI64(nowStep)
    ensures r == Overflow <==> !FitsI64(nowStep - skew) || !FitsI64(nowStep + skew)
    ensures r != Overflow ==>
              r == Ok(exists step: nat :: nowStep - skew <= step <= nowStep + skew && expected(step) == code)
  {
    var matched := false;
    var delta: int := 0 - skew;
    while delta <= skew
      invariant 0 - skew <= delta <= skew + 1
      invariant delta > 0 - skew ==> FitsI64(nowStep - skew) && FitsI64(nowStep + delta - 1)
      invariant matched <==>
                exists step: nat :: nowStep - skew <= step < nowStep + delta && expected(step) == code
    {
      var step := nowStep + delta;
      if !FitsI64(step) {
        return Overflow;
      }
      if step >= 0 {
        var eq := expected(step) == code;
        matched := matched || eq;
      }
      delta := delta + 1;
    }
    r := Ok(matched);
  }

  /** When the scan aborts, by the step and the skew `d` in either direction. */
  lemma OverflowInNumbers(step: U64, skewSteps: I32, d: nat)
    requires skewSteps == d || skewSteps + d == 0
    ensures WindowOverflows(WrapI64(step), skewSteps) <==>
            || skewSteps == -2_147_483_648
            || (step < 9_223_372_036_854_775_808 && step + d >= 9_223_372_036_854_775_808)
            || (step >= 9_223_372_036_854_775_808 && step < 9_223_372_036_854_775_808 + d)
  {
  }

  /** Which steps it scans: those within `d`, or from 2^63 on the ones that wrap around. */
  lemma ScannedInNumbers(step: U64, skewSteps: I32, d: nat, s: nat)
    requires skewSteps == d || skewSteps + d == 0
    ensures Within(WrapI64(step), Abs(skewSteps), s) <==>
            if step < 9_223_372_036_854_775_808 then step <= s + d && s <= step + d
            else s + 18_446_744_073_709_551_616 <= step + d
  {
  }

  /** A code generated at `t`, in step `k`, is accepted at every `u` whose step `l` is
      within `d` of `k`, as long as no step of the window reaches 2^63. */
  lemma GeneratedCodeIsAccepted(mac: Mac, secret: seq<Byte>, timeStep: U64, digits: nat, algo: Algo,
                                t: U64, u: U64, k: nat, l: nat, skewSteps: I32, d: nat)
    requires IsMac(mac) && timeStep != 0 && 1 <= digits <= 9
    requires k * timeStep <= t < k * timeStep + timeStep && l * timeStep <= u < l * timeStep + timeStep
    requires (skewSteps == d || skewSteps + d == 0) && skewSteps != -2_147_483_648
    requires k <= l + d && l <= k + d && l + d < 9_223_372_036_854_775_808
    ensures !WindowOverflows(WrapI64(StepAt(u, timeStep)), skewSteps)
    ensures var code := Generate(mac, secret, timeStep, digits, algo, t);
            code.Ok? && InWindow(mac, secret, code.value, digits, algo, WrapI64(StepAt(u, timeStep)), Abs(skewSteps))
  {
    GeneratesStepCode(mac, secret, timeStep, digits, algo, t, k);
    StepIsUnique(u, timeStep, l);
    assert Within(l, d, k);
    assert HotpAt(mac, secret, k, digits, algo) == Generate(mac, secret, timeStep, digits, algo, t).value;
  }

  /** The scanned window is the asked-for one, without aborting, exactly when the
      skew has an absolute value and no step of the window reaches 2^63. */
  lemma WindowExactIff(step: U64, skewSteps: I32)
    ensures (&& !WindowOverflows(WrapI64(step), skewSteps)
             && forall s: nat :: Within(WrapI64(step), Abs(skewSteps), s) <==> Within(step, Abs(skewSteps), s))
            <==> skewSteps != I32_MIN && step + Abs(skewSteps) < TWO_63
  {
    if step >= TWO_63 {
      assert Within(step, Abs(skewSteps), step) && !Within(WrapI64(step), Abs(skewSteps), step);
    }
  }

  /** The three ways to miss it: the last i64 step with any skew, the skew without
      an absolute value at every step, and any step from 2^63 on. */
  lemma WindowFailures(step: U64)
    ensures WindowOverflows(WrapI64(TWO_63 - 1), 1)
    ensures WindowOverflows(WrapI64(step), I32_MIN)
    ensures step >= TWO_63 ==> Within(step, 0, step) && !Within(WrapI64(step), 0, step)
  {
  }

  /** Without skew, a code verifies at the very time it was generated for exactly
      when the step fits an i64: from 2^63 on the cast makes every step negative. */
  lemma SameTimeAcceptedIff(mac: Mac, secret: seq<Byte>, timeStep: U64, digits: nat, algo: Algo, now: U64)
    requires IsMac(mac) && GoodConfig(timeStep, digits)
    ensures var code := Generate(mac, secret, timeStep, digits, algo, now);
            && code.Ok?
            && (InWindow(mac, secret, code.value, digits, algo, WrapI64(StepAt(now, timeStep)), 0)
                <==> StepAt(now, timeStep) < TWO_63)
  {
    assert HotpAt(mac, secret, StepAt(now, timeStep), digits, algo)
        == Generate(mac, secret, timeStep, digits, algo, now).value;
  }

  /** `code` is `digits` decimal characters whose value is the truncated MAC of
      `step`, modulo 10^digits. */
  ghost predicate CodeOf(mac: Mac, secret: seq<Byte>, code: string, digits: nat, algo: Algo, step: nat)
    requires IsMac(mac)
  {
    && |code| == digits && AllDigits(code)
    && Value(code) == Truncate(mac(algo, secret, ToBeBytes(step, 8))) % Pow10(digits)
  }

  lemma CodeIffValue(mac: Mac, secret: seq<Byte>, code: string, digits: nat, algo: Algo, step: nat)
    requires IsMac(mac) && 1 <= digits <= 9
    ensures HotpAt(mac, secret, step, digits, algo) == code <==> CodeOf(mac, secret, code, digits, algo, step)
  {
    var expected := HotpAt(mac, secret, step, digits, algo);
    CodeReadsBack(mac, secret, step, digits, algo);
    if CodeOf(mac, secret, code, digits, algo, step) {
      ValueInjective(code, expected);
    }
  }

  /** Accepting a code means accepting its number at some step of the window. */
  lemma InWindowMeansValue(mac: Mac, secret: seq<Byte>, code: string, digits: nat, algo: Algo, center: int, skew: nat)
    requires IsMac(mac) && 1 <= digits <= 9
    ensures InWindow(mac, secret, code, digits, algo, center, skew) <==>
            exists step: nat :: Within(center, skew, step) && CodeOf(mac, secret, code, digits, algo, step)
  {
    if InWindow(mac, secret, code, digits, algo, center, skew) {
      var step: nat :| Within(center, skew, step) && HotpAt(mac, secret, step, digits, algo) == code;
      CodeIffValue(mac, secret, code, digits, algo, step);
    }
    if step: nat :| Within(center, skew, step) && CodeOf(mac, secret, code, digits, algo, step) {
      CodeIffValue(mac, secret, code, digits, algo, step);
    }
  }

  lemma {:induction false} ValueInjective(a: string, b: string)
    requires |a| == |b| && AllDigits(a) && AllDigits(b)
    ensures Value(a) == Value(b) ==> a == b
  {
    if a != [] && Value(a) == Value(b) {
      ValueInjective(a[..|a| - 1], b[..|b| - 1]);
      assert a == a[..|a| - 1] + [a[|a| - 1]] && b == b[..|b| - 1] + [b[|b| - 1]];
    }
  }
}

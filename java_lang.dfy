/** The parts of java.lang that the factory's property resolver relies on:
    `String.trim`, `Integer.valueOf(String)` (that is, `Integer.parseInt`
    with radix 10), and `Integer.toString(int)`, the inverse used to state
    the round trip. */
module JavaLang {
  import opened Wrappers

  const IntMin: int := -0x8000_0000
  const IntMax: int := 0x7fff_ffff

  /** Java's 32-bit `int`. */
  newtype int32 = x: int | -0x8000_0000 <= x < 0x8000_0000

  // ---------------------------------------------------------------------
  // String.trim

  /** `String.trim` strips every character whose code is at most U+0020. */
  predicate IsTrimmable(c: char) {
    c <= ' '
  }

  /** A string that trims down to the empty string. */
  predicate IsBlank(s: string) {
    forall k :: 0 <= k < |s| ==> IsTrimmable(s[k])
  }

  /** Drops the leading run of trimmable characters. */
  function TrimStart(s: string): (r: string)
    ensures |r| <= |s| && r == s[|s| - |r|..]
    ensures forall k :: 0 <= k < |s| - |r| ==> IsTrimmable(s[k])
    ensures r != [] ==> !IsTrimmable(r[0])
  {
    if s != [] && IsTrimmable(s[0]) then TrimStart(s[1..]) else s
  }

  /** Drops the trailing run of trimmable characters. */
  function TrimEnd(s: string): (r: string)
    ensures |r| <= |s| && r == s[..|r|]
    ensures forall k :: |r| <= k < |s| ==> IsTrimmable(s[k])
    ensures r != [] ==> !IsTrimmable(r[|r| - 1])
  {
    if s != [] && IsTrimmable(s[|s| - 1]) then TrimEnd(s[..|s| - 1]) else s
  }

  /** `s.trim()`: the JDK first skips the leading run, then the trailing
      run of what is left. The result is empty exactly for a blank string,
      and otherwise begins and ends with a character above U+0020. */
  function Trim(s: string): (r: string)
    ensures r == [] <==> IsBlank(s)
    ensures r != [] ==> !IsTrimmable(r[0]) && !IsTrimmable(r[|r| - 1])
  {
    var t := TrimStart(s);
    var r := TrimEnd(t);
    assert IsBlank(s) ==> t == [] by {
      if t != [] {
        assert t[0] == s[|s| - |t|];
      }
    }
    r
  }

  // ---------------------------------------------------------------------
  // Decimal notation: the reference definition

  /** `Character.digit(c, 10)` restricted to the ASCII digits. */
  predicate IsDigit(c: char) {
    '0' <= c <= '9'
  }

  function DigitValue(c: char): (d: nat)
    requires IsDigit(c)
    ensures d < 10
  {
    c as int - '0' as int
  }

  function DigitChar(d: nat): (c: char)
    requires d < 10
    ensures IsDigit(c) && DigitValue(c) == d
  {
    ('0' as int + d) as char
  }

  predicate AllDigits(ds: string) {
    forall k :: 0 <= k < |ds| ==> IsDigit(ds[k])
  }

  function Pow10(n: nat): (p: nat)
    ensures p >= 1
  {
    if n == 0 then 1 else 10 * Pow10(n - 1)
  }

  /** The number a run of decimal digits denotes, most significant first. */
  function DigitsValue(ds: string): nat
    requires AllDigits(ds)
  {
    if ds == [] then 0 else DigitsValue(ds[..|ds| - 1]) * 10 + DigitValue(ds[|ds| - 1])
  }

  /** What is left of `s` once one leading `-` or `+` is removed. */
  function Unsigned(s: string): string {
    if s != [] && (s[0] == '-' || s[0] == '+') then s[1..] else s
  }

  /** An optional sign followed by one or more decimal digits. */
  predicate IsDecimal(s: string) {
    Unsigned(s) != [] && AllDigits(Unsigned(s))
  }

  function DecimalValue(s: string): int
    requires IsDecimal(s)
  {
    if s[0] == '-' then -(DigitsValue(Unsigned(s)) as int) else DigitsValue(Unsigned(s))
  }

  /** The strings `Integer.parseInt(s, 10)` accepts: decimal notation whose
      value fits in an `int`. */
  predicate IsJavaInt(s: string) {
    IsDecimal(s) && IntMin <= DecimalValue(s) <= IntMax
  }

  lemma {:induction false} DigitsValueCons(c: char, rest: string)
    requires IsDigit(c) && AllDigits(rest)
    ensures AllDigits([c] + rest)
    ensures DigitsValue([c] + rest) == DigitValue(c) * Pow10(|rest|) + DigitsValue(rest)
  {
    var ds := [c] + rest;
    assert AllDigits(ds) by {
      forall k | 0 <= k < |ds| ensures IsDigit(ds[k]) {
        if k > 0 { assert ds[k] == rest[k - 1]; }
      }
    }
    if rest != [] {
      var n := |rest|;
      var init, last := rest[..n - 1], rest[n - 1];
      assert ds[..|ds| - 1] == [c] + init;
      assert ds[|ds| - 1] == last;
      assert AllDigits(init) by {
        forall k | 0 <= k < |init| ensures IsDigit(init[k]) {
          assert init[k] == rest[k];
        }
      }
      DigitsValueCons(c, init);
      assert DigitsValue(ds) == DigitsValue([c] + init) * 10 + DigitValue(last);
      assert DigitsValue(rest) == DigitsValue(init) * 10 + DigitValue(last);
      ShiftDigit(DigitValue(c), Pow10(n - 1), DigitsValue(init), DigitValue(last));
    }
  }

  lemma ShiftDigit(d: nat, p: nat, v: nat, x: nat)
    ensures (d * p + v) * 10 + x == d * (10 * p) + (v * 10 + x)
  {
    calc {
      (d * p + v) * 10 + x;
      (d * p) * 10 + v * 10 + x;
      d * (10 * p) + (v * 10 + x);
    }
  }

  // ---------------------------------------------------------------------
  // Integer.parseInt(s, 10), as the JDK computes it

  /** The digit loop of `Integer.parseInt`: scans left to right, fails on
      the first character that is not a digit, and fails as soon as the
      magnitude read so far passes `limit`. */
  function Accumulate(ds: string, acc: nat, limit: nat): (r: Option<nat>)
    requires acc <= limit
    ensures r.Some? ==> r.value <= limit
    decreases |ds|
  {
    if ds == [] then Some(acc)
    else if !IsDigit(ds[0]) then None
    else
      var next := acc * 10 + DigitValue(ds[0]);
      if next > limit then None else Accumulate(ds[1..], next, limit)
  }

  /** One step of the loop on a run of digits: the value still to be
      reached is unchanged when the first digit moves into the accumulator. */
  lemma AccumulateStep(ds: string, acc: nat)
    requires ds != [] && AllDigits(ds)
    ensures AllDigits(ds[1..])
    ensures acc * Pow10(|ds|) + DigitsValue(ds)
         == (acc * 10 + DigitValue(ds[0])) * Pow10(|ds| - 1) + DigitsValue(ds[1..])
  {
    var rest := ds[1..];
    AllDigitsTail(ds);
    assert ds == [ds[0]] + rest;
    DigitsValueCons(ds[0], rest);
    Regroup(acc, DigitValue(ds[0]), Pow10(|rest|), DigitsValue(rest));
  }

  /** Behind a leading digit, the rest is all digits exactly when the
      whole run is. */
  lemma AllDigitsTail(ds: string)
    requires ds != [] && IsDigit(ds[0])
    ensures AllDigits(ds) <==> AllDigits(ds[1..])
  {
    var rest := ds[1..];
    if AllDigits(ds) {
      forall k | 0 <= k < |rest| ensures IsDigit(rest[k]) {
        assert rest[k] == ds[k + 1];
      }
    }
    if AllDigits(rest) {
      forall k | 0 <= k < |ds| ensures IsDigit(ds[k]) {
        if k > 0 {
          assert ds[k] == rest[k - 1];
        }
      }
    }
  }

  /** Appending digits never makes a number smaller. */
  lemma ShiftAtLeast(n: nat, ds: string)
    requires AllDigits(ds)
    ensures n * Pow10(|ds|) + DigitsValue(ds) >= n
  {
    var p := Pow10(|ds|);
    assert n * p == n + n * (p - 1);
  }

  lemma Regroup(acc: nat, d: nat, p: nat, r: nat)
    ensures acc * (10 * p) + (d * p + r) == (acc * 10 + d) * p + r
  {
    calc {
      acc * (10 * p) + (d * p + r);
      (acc * 10) * p + d * p + r;
      (acc * 10 + d) * p + r;
    }
  }

  /** The early exit on overflow loses nothing: the loop succeeds exactly
      when the whole run is digits and its full value is within `limit`. */
  lemma {:induction false} AccumulateCorrect(ds: string, acc: nat, limit: nat)
    requires acc <= limit
    ensures Accumulate(ds, acc, limit) ==
      if AllDigits(ds) && acc * Pow10(|ds|) + DigitsValue(ds) <= limit
      then Some(acc * Pow10(|ds|) + DigitsValue(ds))
      else None
    decreases |ds|
  {
    if ds == [] {
      assert acc * Pow10(0) == acc;
    } else if !IsDigit(ds[0]) {
      assert !AllDigits(ds);
    } else {
      var next := acc * 10 + DigitValue(ds[0]);
      var rest := ds[1..];
      AllDigitsTail(ds);
      if AllDigits(ds) {
        AccumulateStep(ds, acc);
        ShiftAtLeast(next, rest);
      }
      if next <= limit {
        AccumulateCorrect(rest, next, limit);
      }
    }
  }

  /** `Integer.valueOf(s)`: `Some(v)` for the value, `None` where the JDK
      throws `NumberFormatException`. The sign is read first, then the digits
      against the limit for that sign (2^31 for negative, 2^31 - 1 otherwise). */
  function ParseInt(s: string): (r: Option<int32>)
    ensures r.Some? <==> IsJavaInt(s)
    ensures r.Some? ==> r.value as int == DecimalValue(s)
  {
    if s == [] then None
    else
      var negative := s[0] == '-';
      var digits := Unsigned(s);
      var limit: nat := if negative then -IntMin else IntMax;
      if digits == [] then None
      else
        AccumulateCorrect(digits, 0, limit);
        match Accumulate(digits, 0, limit)
        case None => None
        case Some(magnitude) => Some((if negative then -(magnitude as int) else magnitude) as int32)
  }

  // ---------------------------------------------------------------------
  // Integer.toString(int): the inverse

  /** The shortest decimal digits of `n`. */
  function NatToString(n: nat): (s: string)
    ensures s != [] && AllDigits(s) && DigitsValue(s) == n
    decreases n
  {
    var s := if n < 10 then [DigitChar(n)] else NatToString(n / 10) + [DigitChar(n % 10)];
    assert n >= 10 ==> s[..|s| - 1] == NatToString(n / 10);
    s
  }

  function IntToString(v: int32): string {
    if v < 0 then "-" + NatToString(-(v as int)) else NatToString(v as int)
  }

  /** Every `int` that `Integer.toString` prints is read back by
      `Integer.valueOf` as the same `int`. */
  lemma ParseIntToString(v: int32)
    ensures ParseInt(IntToString(v)) == Some(v)
  {
    var s := IntToString(v);
    if v < 0 {
      var t := NatToString(-(v as int));
      assert s[0] == '-' && Unsigned(s) == t;
    } else {
      var t := NatToString(v as int);
      assert IsDigit(t[0]);
      assert Unsigned(s) == t;
    }
  }
}

/** Decimal text: unsigned and signed words as the firmware writes them, and
    what such digits say. */
module Decimals {
  import opened Wrappers
  import opened Words

  predicate IsDigit(c: char) {
    '0' <= c <= '9'
  }

  predicate AllDigits(s: string) {
    forall c :: c in s ==> IsDigit(c)
  }

  function DigitValue(c: char): nat
    requires IsDigit(c)
  {
    c as int - '0' as int
  }

  function DigitOf(n: nat): (c: char)
    requires n < 10
    ensures IsDigit(c) && DigitValue(c) == n
  {
    ('0' as int + n) as char
  }

  /** What decimal digits say. */
  function Decimal(ds: string): nat
    requires AllDigits(ds)
  {
    if ds == "" then 0 else 10 * Decimal(ds[..|ds| - 1]) + DigitValue(ds[|ds| - 1])
  }

  lemma {:induction false} DecimalGrows(ds: string, k: nat)
    requires k <= |ds| && AllDigits(ds)
    ensures Decimal(ds[..k]) <= Decimal(ds)
    decreases |ds|
  {
    if k < |ds| {
      DecimalGrows(ds[..|ds| - 1], k);
      assert ds[..|ds| - 1][..k] == ds[..k];
    } else {
      assert ds[..k] == ds;
    }
  }

  /** A number's digits, with no leading zero but zero's own. */
  function Shown(v: nat): (s: string)
    ensures s != "" && AllDigits(s)
  {
    if v < 10 then [DigitOf(v)] else Shown(v / 10) + [DigitOf(v % 10)]
  }

  lemma {:induction false} ShownIsDecimal(v: nat)
    ensures Decimal(Shown(v)) == v
  {
    if v < 10 {
      assert Shown(v)[..0] == "";
    } else {
      ShownIsDecimal(v / 10);
      var s := Shown(v);
      assert s[..|s| - 1] == Shown(v / 10);
    }
  }

  /** A number below a power of ten has no more digits than its exponent. */
  lemma {:induction false} ShownIsShort(v: nat, k: nat)
    requires k > 0 && v < Pow10(k)
    ensures |Shown(v)| <= k
  {
    if v >= 10 {
      assert k > 1;
      ShownIsShort(v / 10, k - 1);
    }
  }

  function Pow10(k: nat): nat {
    if k == 0 then 1 else 10 * Pow10(k - 1)
  }

  lemma WordIsShort(v: u32)
    ensures |Shown(v)| <= 10
  {
    assert Pow10(4) == 10_000;
    assert Pow10(7) == 10_000_000;
    assert Pow10(10) == 10_000_000_000;
    ShownIsShort(v, 10);
  }

  /** The digits still to come of a number being taken apart. */
  function Lead(v: nat): (s: string)
    ensures AllDigits(s)
  {
    if v == 0 then "" else Shown(v)
  }

  lemma ShownSplits(v: nat)
    ensures Shown(v) == Lead(v / 10) + [DigitOf(v % 10)]
  {
  }

  /** put_u32(): the digits gathered from the last, then put out from the first. */
  method PutU32(v: u32) returns (s: string)
    ensures s == Shown(v)
  {
    hide Shown, Reversed, DigitOf;
    var tmp: string := [DigitOf(v % 10)];
    var left: nat := v / 10;
    ShownSplits(v);
    ReversedExtends("", DigitOf(v % 10));
    assert tmp == "" + [DigitOf(v % 10)];
    assert Lead(left) + Reversed(tmp) == Lead(left) + tmp;
    while left > 0
      invariant Shown(v) == Lead(left) + Reversed(tmp)
    {
      ShownSplits(left);
      ReversedExtends(tmp, DigitOf(left % 10));
      tmp, left := tmp + [DigitOf(left % 10)], left / 10;
    }
    s := "";
    var n: nat := |tmp|;
    assert tmp[..n] == tmp;
    while n > 0
      invariant n <= |tmp| && Shown(v) == s + Reversed(tmp[..n])
    {
      n := n - 1;
      assert tmp[..n + 1] == tmp[..n] + [tmp[n]];
      ReversedExtends(tmp[..n], tmp[n]);
      s := s + [tmp[n]];
    }
  }

  function Reversed(s: string): string {
    if s == "" then "" else [s[|s| - 1]] + Reversed(s[..|s| - 1])
  }

  lemma ReversedExtends(s: string, c: char)
    ensures Reversed(s + [c]) == [c] + Reversed(s) && Reversed("") == ""
  {
    assert (s + [c])[..|s|] == s;
  }

  /* ---- Signed words ---- */

  type i32 = x: int | -0x8000_0000 <= x < 0x8000_0000

  function ShownSigned(v: int): string {
    if v >= 0 then Shown(v) else "-" + Shown(-v)
  }

  /** A number written in decimal, with or without a minus. */
  function ReadSigned(s: string): Option<int> {
    if s != "" && s[0] == '-' then (if AllDigits(s[1..]) then Some(0 - Decimal(s[1..])) else None)
    else if AllDigits(s) then Some(Decimal(s))
    else None
  }

  lemma SignedRoundTrip(v: int)
    ensures ReadSigned(ShownSigned(v)) == Some(v)
  {
    if v < 0 {
      ShownIsDecimal(-v);
      assert ShownSigned(v)[1..] == Shown(-v);
    } else {
      ShownIsDecimal(v);
      assert IsDigit(Shown(v)[0]);
    }
  }

  lemma UnsignedNegation(v: int)
    requires -HALF_TURN <= v < 0
    ensures Sub(0, Wrap(v)) == -v
  {
    WrapUnique(v, v + 0x1_0000_0000, -1);
    WrapUnique(-0x1_0000_0000 - v, -v, -1);
  }

  /** put_i32(): the magnitude of INT32_MIN too, by unsigned negation. */
  method PutI32(v: i32) returns (s: string)
    ensures s == ShownSigned(v)
  {
    hide Shown;
    if v < 0 {
      UnsignedNegation(v);
      var digits := PutU32(Sub(0, Wrap(v)));
      s := "-" + digits;
    } else {
      s := PutU32(v);
    }
  }
}

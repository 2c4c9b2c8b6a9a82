/** Unsigned 32-bit words as the firmware computes with them: every sum and
    difference wraps, and a difference read as signed is two's complement.

    Times are unbounded integers in the properties; `Wrap` of a time is what a
    32-bit timer shows. */
module Words {

  const TURN: int := 0x1_0000_0000
  const HALF_TURN: int := 0x8000_0000

  type u32 = x: int | 0 <= x < 0x1_0000_0000

  function Wrap(x: int): u32 {
    x % 0x1_0000_0000
  }

  function Add(a: u32, b: u32): u32 {
    Wrap(a + b)
  }

  function Sub(a: u32, b: u32): u32 {
    Wrap(a - b)
  }

  /** A word read as int32_t. */
  function Signed(x: u32): int {
    if x < 0x8000_0000 then x else x - 0x1_0000_0000
  }

  lemma WrapUnique(x: int, r: u32, k: int)
    requires x == r + k * 0x1_0000_0000
    ensures Wrap(x) == r
  {
  }

  /** A timer difference is the true elapsed time modulo a turn of the timer. */
  lemma SubWraps(s: int, t: int)
    ensures Sub(Wrap(t), Wrap(s)) == Wrap(t - s)
  {
    var a, b, c := t / 0x1_0000_0000, s / 0x1_0000_0000, (t - s) / 0x1_0000_0000;
    WrapUnique(Wrap(t) - Wrap(s), Wrap(t - s), c - a + b);
  }

  /** Within a turn of the timer, it is the elapsed time. */
  lemma ElapsedIsTrue(s: int, t: int)
    requires s <= t < s + TURN
    ensures Sub(Wrap(t), Wrap(s)) == t - s
  {
    SubWraps(s, t);
    WrapUnique(t - s, t - s, 0);
  }

  /** At any distance it never shows more than has passed. */
  lemma ElapsedNeverExceeds(s: int, t: int)
    requires s <= t
    ensures Sub(Wrap(t), Wrap(s)) <= t - s
  {
    SubWraps(s, t);
  }

  /** Read as signed, it orders two times less than half a turn apart. */
  lemma SignedIsTrue(s: int, t: int)
    requires -HALF_TURN <= t - s < HALF_TURN
    ensures Signed(Sub(Wrap(t), Wrap(s))) == t - s
  {
    SubWraps(s, t);
    if t < s {
      WrapUnique(t - s, t - s + 0x1_0000_0000, -1);
    } else {
      WrapUnique(t - s, t - s, 0);
    }
  }
}

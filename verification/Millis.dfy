/** The 32-bit millisecond clock: readings wrap, differences of readings are taken modulo 2^32. */
module Millis {

  const WRAP: nat := 0x1_0000_0000

  /** A reading of the clock. */
  type Reading = t: int | 0 <= t < WRAP

  /** What the clock shows at true time `t`. */
  function Shown(t: nat): Reading { t % WRAP }

  /** Unsigned 32-bit subtraction. */
  function Elapsed(now: Reading, then_: Reading): Reading { (now - then_) % WRAP }

  /** The signed 32-bit value of a difference. */
  function Signed(d: Reading): int { if d < WRAP / 2 then d else d - WRAP }

  lemma ModIsShift(a: int, q: int)
    requires 0 <= a + q * WRAP < WRAP
    ensures a % WRAP == a + q * WRAP
  {
  }

  lemma ShownRepeats(t: nat)
    ensures Shown(t + WRAP) == Shown(t)
  {
    ModIsShift(t + WRAP, -(t / WRAP) - 1);
  }

  /** The difference of two readings is the true time between them, if that is below 2^32 ms. */
  lemma ElapsedIsTrue(now: nat, then_: nat)
    requires then_ <= now < then_ + WRAP
    ensures Elapsed(Shown(now), Shown(then_)) == now - then_
  {
    var a := Shown(now) - Shown(then_);
    ModIsShift(a, now / WRAP - then_ / WRAP);
  }

  /** The elapsed time that the program sees is never more than the true one, and is right up to 2^32 ms. */
  lemma ElapsedAtMost(now: nat, begun: nat)
    requires begun <= now
    ensures Elapsed(Shown(now), Shown(begun)) <= now - begun
    ensures now - begun < 0x1_0000_0000 ==> Elapsed(Shown(now), Shown(begun)) == now - begun
  {
  }

  /** The signed difference of two readings is the true one, if they are less than 2^31 ms apart. */
  lemma SignedIsTrue(a: nat, b: nat)
    requires -(WRAP / 2) <= a - b < WRAP / 2
    ensures Signed(Elapsed(Shown(a), Shown(b))) == a - b
  {
    var d := Shown(a) - Shown(b);
    ModIsShift(d, a / WRAP - b / WRAP + (if a >= b then 0 else 1));
  }
}

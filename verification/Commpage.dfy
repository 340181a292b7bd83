/**
 * platform/darwin/gettimeofday.c: the time of day from the kernel's published tick stamp, in 64.64
 * fixed point. Machine words are written out as remainders.
 */
module Commpage {
  import opened Bytes
  import opened Options

  const TWO63: nat := 0x8000_0000_0000_0000
  const MILLION: nat := 1000000

  type Word = x: int | 0 <= x < TWO64

  datatype Page = Page(tick: Word, sec: Word, frac: Word, scale: Word, perSec: Word)

  datatype Timeval = Timeval(sec: int, usec: nat)

  /** A word read as a long: the type of tv_sec. */
  function AsLong(x: int): int {
    (x + TWO63) % TWO64 - TWO63
  }

  /** Ticks since the stamp; the subtraction is on unsigned words. */
  function Delta(p: Page, now: Word): Word {
    (now - p.tick) % TWO64
  }

  /** A reading at or after the stamp counts the ticks since; one before it counts as nearly 2^64 of them. */
  lemma DeltaIs(p: Page, now: Word)
    ensures now >= p.tick ==> Delta(p, now) == now - p.tick
    ensures now < p.tick ==> Delta(p, now) == TWO64 - (p.tick - now)
  {
  }

  /** The time the stamp and the ticks since it stand for, in units of 2^-64 seconds. */
  function Elapsed(p: Page, delta: Word): nat {
    p.sec * TWO64 + p.frac + p.scale * delta
  }

  /** What the conversion makes of a fraction: its low half is dropped first. */
  function Micros(frac: Word): nat {
    MILLION * (frac / TWO32) / TWO32
  }

  /** Whole microseconds in x, rounded down: the reference. */
  function Floor(x: nat): nat {
    x * MILLION / TWO64
  }

  /** The low half would have carried into the microseconds. */
  predicate Carries(frac: Word) {
    (MILLION * (frac / TWO32)) % TWO32 * TWO32 + MILLION * (frac % TWO32) >= TWO64
  }

  lemma WrapsOnce(a: int, b: int)
    ensures AsLong(AsLong(a) + b) == AsLong(a + b)
  {
    assert (AsLong(a) + b + TWO63) % TWO64 == (a + b + TWO63) % TWO64 by {
      assert AsLong(a) == a - (a + TWO63) / TWO64 * TWO64;
    }
  }

  /** Adding the low product word with a carry, and the high one apart, is adding the product. */
  lemma CarryIsExact(frac: Word, prod: nat)
    ensures var low := (frac + prod % TWO64) % TWO64;
            && low == (frac + prod) % TWO64
            && prod / TWO64 + (if frac > low then 1 else 0) == (frac + prod) / TWO64
  {
  }

  /**
   * __commpage_gettimeofday_internal(): the seconds are exact on every input, as far as a long can
   * hold them; the failure cases are exactly the two tests.
   */
  method GetTimeOfDay(p: Page, now: Word) returns (r: Option<Timeval>)
    ensures r == None <==> p.tick == 0 || Delta(p, now) >= p.perSec
    ensures r != None ==> r.value.sec == AsLong(Elapsed(p, Delta(p, now)) / TWO64)
    ensures r != None ==> r.value.usec == Micros(Elapsed(p, Delta(p, now)) % TWO64)
  {
    hide AsLong, Elapsed;
    if p.tick == 0 {
      return None;
    }
    var delta: Word := (now - p.tick) % TWO64;
    if delta >= p.perSec {
      return None;
    }
    var prod := p.scale * delta;
    var sec := AsLong(p.sec);
    var over := prod / TWO64;
    if over != 0 {
      sec := AsLong(sec + over);
    }
    WrapsOnce(p.sec, over);
    var frac: Word := (p.frac + prod % TWO64) % TWO64;
    if p.frac > frac {
      sec := AsLong(sec + 1);
    }
    WrapsOnce(p.sec + over, 1);
    PartsAddUp(p, delta);
    r := Some(Timeval(sec, MILLION * (frac / TWO32) / TWO32));
  }

  lemma PartsAddUp(p: Page, delta: Word)
    ensures var prod, x := p.scale * delta, Elapsed(p, delta);
            var low := (p.frac + prod % TWO64) % TWO64;
            && low == x % TWO64
            && p.sec + prod / TWO64 + (if p.frac > low then 1 else 0) == x / TWO64
  {
    var prod := p.scale * delta;
    ProductIsNat(p.scale, delta);
    CarryIsExact(p.frac, prod);
    Shift(p.sec, p.frac + prod);
  }

  lemma ProductIsNat(a: nat, b: nat)
    ensures a * b >= 0
  {
  }

  lemma Shift(q: int, x: int)
    ensures (q * TWO64 + x) / TWO64 == q + x / TWO64
    ensures (q * TWO64 + x) % TWO64 == x % TWO64
  {
  }

  /** The seconds are the exact ones if and only if they fit. */
  lemma SecondsExactWhenTheyFit(x: nat)
    ensures AsLong(x / TWO64) == x / TWO64 <==> x / TWO64 < TWO63
  {
  }

  /**
   * The microseconds are a proper fraction of a second and the exact ones rounded down, or one less:
   * one less if and only if the dropped half would have carried.
   */
  lemma MicrosAreTight(frac: Word)
    ensures Micros(frac) < MILLION
    ensures Micros(frac) == Floor(frac) - (if Carries(frac) then 1 else 0)
  {
    var hi, lo := frac / TWO32, frac % TWO32;
    var a, b := MILLION * hi / TWO32, (MILLION * hi) % TWO32;
    assert frac * MILLION == a * TWO64 + (b * TWO32 + MILLION * lo);
    Shift(a, b * TWO32 + MILLION * lo);
  }

  /** The bound is met: the smallest fraction of a whole microsecond is read as none. */
  lemma OneLessHappens()
    ensures Floor(18446744073710) == 1 && Micros(18446744073710) == 0 && Carries(18446744073710)
  {
  }

  /** The whole reading in microseconds, against the exact time. */
  lemma ReadingIsTight(p: Page, delta: Word)
    ensures var x := Elapsed(p, delta);
            x / TWO64 * MILLION + Micros(x % TWO64) == Floor(x) - (if Carries(x % TWO64) then 1 else 0)
  {
    var x := Elapsed(p, delta);
    MicrosAreTight(x % TWO64);
    assert x * MILLION == (x / TWO64 * MILLION) * TWO64 + x % TWO64 * MILLION;
    Shift(x / TWO64 * MILLION, x % TWO64 * MILLION);
  }

  lemma MicrosMonotone(a: Word, b: Word)
    requires a <= b
    ensures Micros(a) <= Micros(b)
  {
    var h, k := a / TWO32, b / TWO32;
    assert h <= k;
    assert MILLION * h <= MILLION * k;
  }

  /** Later ticks never give an earlier time of day. */
  lemma NeverBackwards(p: Page, d: Word, d': Word)
    requires d <= d'
    ensures var x, x' := Elapsed(p, d), Elapsed(p, d');
            x / TWO64 * MILLION + Micros(x % TWO64) <= x' / TWO64 * MILLION + Micros(x' % TWO64)
  {
    hide Micros, Floor, Carries;
    Product(p.scale, d, d');
    Later(Elapsed(p, d), Elapsed(p, d'));
  }

  lemma Product(a: nat, d: nat, d': nat)
    requires d <= d'
    ensures a * d <= a * d'
  {
  }

  lemma Later(x: nat, x': nat)
    requires x <= x'
    ensures x / TWO64 * MILLION + Micros(x % TWO64) <= x' / TWO64 * MILLION + Micros(x' % TWO64)
  {
    hide Micros, Floor, Carries;
    if x / TWO64 == x' / TWO64 {
      MicrosMonotone(x % TWO64, x' % TWO64);
    } else {
      MicrosAreTight(x % TWO64);
    }
  }
}

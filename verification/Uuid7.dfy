// Time-ordered UUIDs: a clock that never goes back, a counter inside each millisecond, and
// the layout of section 5.7 of RFC 9562.
module Uuid7 {
  import opened Division

  // --- bits --------------------------------------------------------------------------

  const TWO_48 := 0x1_0000_0000_0000
  const TWO_62 := 0x4000_0000_0000_0000
  const TWO_64 := 0x1_0000_0000_0000_0000
  const TWO_76 := 0x1000_0000_0000_0000_0000
  const TWO_80 := 0x1_0000_0000_0000_0000_0000
  const TWO_128 := 0x1_0000_0000_0000_0000_0000_0000_0000_0000

  // Bitwise or.
  function Or(a: nat, b: nat): nat {
    if a == 0 && b == 0 then 0
    else 2 * Or(a / 2, b / 2) + (if a % 2 == 1 || b % 2 == 1 then 1 else 0)
  }

  ghost predicate IsPowerOfTwo(m: nat) {
    m == 1 || (m > 1 && m % 2 == 0 && IsPowerOfTwo(m / 2))
  }

  lemma {:induction false} OrZero(a: nat)
    ensures Or(a, 0) == a
  {
    if a > 0 {
      OrZero(a / 2);
    }
  }

  // Or-ing in bits below those already there is adding them.
  lemma {:induction false} OrBelow(hi: nat, m: nat, lo: nat)
    requires IsPowerOfTwo(m) && lo < m
    ensures Or(hi * m, lo) == hi * m + lo
    decreases m
  {
    if m == 1 {
      OrZero(hi);
    } else {
      var half := m / 2;
      assert hi * m == 2 * (hi * half);
      OrBelow(hi, half, lo / 2);
    }
  }

  lemma {:induction false} ProductIsPower(a: nat, b: nat)
    requires IsPowerOfTwo(a) && IsPowerOfTwo(b)
    ensures IsPowerOfTwo(a * b)
    decreases a
  {
    if a > 1 {
      ProductIsPower(a / 2, b);
      assert a * b == 2 * (a / 2 * b);
    }
  }

  lemma ShiftsArePowers()
    ensures IsPowerOfTwo(TWO_62) && IsPowerOfTwo(TWO_64) && IsPowerOfTwo(TWO_76) && IsPowerOfTwo(TWO_80)
  {
    assert IsPowerOfTwo(2) && IsPowerOfTwo(4);
    ProductIsPower(4, 4);
    ProductIsPower(16, 16);
    ProductIsPower(256, 16);
    ProductIsPower(256, 256);
    ProductIsPower(65536, 65536);
    ProductIsPower(0x1_0000_0000, 0x1_0000_0000);
    ProductIsPower(0x1_0000_0000, 65536);
    ProductIsPower(4096, 4);
    ProductIsPower(TWO_48, 16384);
    ProductIsPower(TWO_64, 4096);
    ProductIsPower(TWO_64, 65536);
  }

  // --- the value -----------------------------------------------------------------------

  const COUNTER_MAX := 4095
  const SEED_MAX := 2047

  // The value, or-ed together field by field; a shift left by k is a product with 2 to the k.
  function Packed(ms: nat, counter: nat, random: nat): nat {
    var timestamp := ms * TWO_80;
    var version := Or(timestamp, 7 * TWO_76);
    var counted := Or(version, counter * TWO_64);
    var variant := Or(counted, 2 * TWO_62);
    Or(variant, random)
  }

  datatype Layout = Layout(timestamp: nat, version: nat, randA: nat, variant: nat, randB: nat)

  // The fields of a version 7 UUID, read back by shifting and masking.
  function Unpacked(value: nat): Layout {
    Layout(value / TWO_80, value / TWO_76 % 16, value / TWO_64 % 4096, value / TWO_62 % 4, value % TWO_62)
  }

  lemma FieldsOr(ms: nat, versioned: nat, counted: nat, varied: nat, counter: nat, random: nat)
    requires counter <= COUNTER_MAX && random < TWO_62
    ensures Or(ms * TWO_80, 7 * TWO_76) == ms * TWO_80 + 7 * TWO_76
    ensures Or(versioned * TWO_76, counter * TWO_64) == versioned * TWO_76 + counter * TWO_64
    ensures Or(counted * TWO_64, 2 * TWO_62) == counted * TWO_64 + 2 * TWO_62
    ensures Or(varied * TWO_62, random) == varied * TWO_62 + random
  {
    ShiftsArePowers();
    OrBelow(ms, TWO_80, 7 * TWO_76);
    OrBelow(versioned, TWO_76, counter * TWO_64);
    OrBelow(counted, TWO_64, 2 * TWO_62);
    OrBelow(varied, TWO_62, random);
  }

  // Or-ing the fields in is laying them side by side.
  lemma PackedIs(ms: nat, counter: nat, random: nat)
    requires counter <= COUNTER_MAX && random < TWO_62
    ensures Packed(ms, counter, random) == ms * TWO_80 + 7 * TWO_76 + counter * TWO_64 + 2 * TWO_62 + random
  {
    var versioned := ms * 16 + 7;
    var counted := versioned * 4096 + counter;
    FieldsOr(ms, versioned, counted, counted * 4 + 2, counter, random);
  }

  lemma RandomDecodes(upper: nat, counter: nat, random: nat)
    requires random < TWO_62
    ensures var value := upper * TWO_76 + counter * TWO_64 + 2 * TWO_62 + random;
            value % TWO_62 == random && value / TWO_62 % 4 == 2
  {
    var value := upper * TWO_76 + counter * TWO_64 + 2 * TWO_62 + random;
    Divides(value, TWO_62, (upper * 4096 + counter) * 4 + 2, random);
  }

  lemma CounterDecodes(upper: nat, counter: nat, random: nat)
    requires counter <= COUNTER_MAX && random < TWO_62
    ensures (upper * TWO_76 + counter * TWO_64 + 2 * TWO_62 + random) / TWO_64 % 4096 == counter
  {
    var value := upper * TWO_76 + counter * TWO_64 + 2 * TWO_62 + random;
    Divides(value, TWO_64, upper * 4096 + counter, 2 * TWO_62 + random);
    Divides(upper * 4096 + counter, 4096, upper, counter);
  }

  lemma TimestampDecodes(ms: nat, counter: nat, random: nat)
    requires counter <= COUNTER_MAX && random < TWO_62
    ensures var value := (ms * 16 + 7) * TWO_76 + counter * TWO_64 + 2 * TWO_62 + random;
            value / TWO_76 % 16 == 7 && value / TWO_80 == ms
  {
    var value := (ms * 16 + 7) * TWO_76 + counter * TWO_64 + 2 * TWO_62 + random;
    Divides(value, TWO_76, ms * 16 + 7, counter * TWO_64 + 2 * TWO_62 + random);
    Divides(value, TWO_80, ms, 7 * TWO_76 + counter * TWO_64 + 2 * TWO_62 + random);
  }

  // Every field decodes to exactly what was packed.
  lemma FieldsDecode(ms: nat, counter: nat, random: nat)
    requires counter <= COUNTER_MAX && random < TWO_62
    ensures Unpacked(Packed(ms, counter, random)) == Layout(ms, 7, counter, 2, random)
  {
    PackedIs(ms, counter, random);
    RandomDecodes(ms * 16 + 7, counter, random);
    CounterDecodes(ms * 16 + 7, counter, random);
    TimestampDecodes(ms, counter, random);
  }

  // A value fits 128 bits exactly when its timestamp fits 48.
  lemma FitsExactly(ms: nat, counter: nat, random: nat)
    requires counter <= COUNTER_MAX && random < TWO_62
    ensures Packed(ms, counter, random) < TWO_128 <==> ms < TWO_48
  {
    PackedIs(ms, counter, random);
  }

  // --- the clock -------------------------------------------------------------------------

  datatype Clock = Clock(lastMs: nat, counter: nat)

  // One call's inputs: the wall clock in milliseconds, the seed drawn if the counter starts
  // afresh, and the random bits.
  datatype Reading = Reading(now: int, seed: nat, random: nat)

  predicate ValidReading(r: Reading) {
    r.seed <= SEED_MAX && r.random < TWO_62
  }

  function Tick(c: Clock, r: Reading): Clock {
    if r.now > c.lastMs then Clock(r.now, r.seed)
    else if c.counter >= COUNTER_MAX then Clock(c.lastMs + 1, r.seed)
    else Clock(c.lastMs, c.counter + 1)
  }

  datatype Minted = Uuid(value: nat) | TooLate

  class Minter {
    var lastMs: nat
    var counter: nat

    constructor ()
      ensures lastMs == 0 && counter == 0
    {
      lastMs, counter := 0, 0;
    }

    // Moves the clock on and packs its reading; past the year the timestamp field can hold
    // there is no UUID to give.
    method Mint(r: Reading) returns (minted: Minted)
      requires ValidReading(r) && counter <= COUNTER_MAX
      modifies this
      ensures Clock(lastMs, counter) == Tick(old(Clock(lastMs, counter)), r) && counter <= COUNTER_MAX
      ensures minted == if lastMs < TWO_48 then Uuid(Packed(lastMs, counter, r.random)) else TooLate
    {
      if r.now > lastMs {
        lastMs := r.now;
        counter := r.seed;
      } else if counter >= COUNTER_MAX {
        lastMs := lastMs + 1;
        counter := r.seed;
      } else {
        counter := counter + 1;
      }
      var value := lastMs * TWO_80;
      value := Or(value, 7 * TWO_76);
      value := Or(value, counter * TWO_64);
      value := Or(value, 2 * TWO_62);
      value := Or(value, r.random);
      FitsExactly(lastMs, counter, r.random);
      minted := if value < TWO_128 then Uuid(value) else TooLate;
    }
  }

  // --- any sequence of clock readings ---------------------------------------------------

  function After(c: Clock, readings: seq<Reading>): Clock {
    if readings == [] then c else Tick(After(c, readings[..|readings| - 1]), readings[|readings| - 1])
  }

  // The value the call with this index gives.
  function ValueAt(readings: seq<Reading>, i: nat): nat
    requires i < |readings|
  {
    var c := After(Clock(0, 0), readings[..i + 1]);
    Packed(c.lastMs, c.counter, readings[i].random)
  }

  predicate AllValid(readings: seq<Reading>) {
    forall i :: 0 <= i < |readings| ==> ValidReading(readings[i])
  }

  predicate Earlier(a: Clock, b: Clock) {
    a.lastMs < b.lastMs || (a.lastMs == b.lastMs && a.counter < b.counter)
  }

  lemma {:induction false} CounterFits(readings: seq<Reading>)
    requires AllValid(readings)
    ensures After(Clock(0, 0), readings).counter <= COUNTER_MAX
  {
    if readings != [] {
      CounterFits(readings[..|readings| - 1]);
    }
  }

  lemma {:induction false} ClockMovesOn(c: Clock, readings: seq<Reading>, i: nat)
    requires i < |readings|
    ensures Earlier(After(c, readings[..i]), After(c, readings))
    decreases |readings|
  {
    var shorter := readings[..|readings| - 1];
    if i < |readings| - 1 {
      ClockMovesOn(c, shorter, i);
      assert shorter[..i] == readings[..i];
    }
  }

  lemma PackingKeepsOrder(a: Clock, b: Clock, ra: nat, rb: nat)
    requires Earlier(a, b) && a.counter <= COUNTER_MAX && b.counter <= COUNTER_MAX
    requires ra < TWO_62 && rb < TWO_62
    ensures Packed(a.lastMs, a.counter, ra) < Packed(b.lastMs, b.counter, rb)
  {
    PackedIs(a.lastMs, a.counter, ra);
    PackedIs(b.lastMs, b.counter, rb);
  }

  // Values strictly increase over any sequence of clock readings, a stopped or a backward
  // clock included.
  lemma ValuesIncrease(readings: seq<Reading>, i: nat, j: nat)
    requires AllValid(readings) && i < j < |readings|
    ensures ValueAt(readings, i) < ValueAt(readings, j)
  {
    CounterFits(readings[..i + 1]);
    CounterFits(readings[..j + 1]);
    ClockMovesOn(Clock(0, 0), readings[..j + 1], i + 1);
    assert readings[..j + 1][..i + 1] == readings[..i + 1];
    PackingKeepsOrder(After(Clock(0, 0), readings[..i + 1]), After(Clock(0, 0), readings[..j + 1]),
                      readings[i].random, readings[j].random);
  }

  // --- how far ahead of the wall clock ----------------------------------------------------

  function Latest(readings: seq<Reading>): nat {
    if readings == [] then 0
    else
      var before, now := Latest(readings[..|readings| - 1]), readings[|readings| - 1].now;
      if now > before then now else before
  }

  // Each millisecond borrowed took 2049 calls: the counter starts at most half way up.
  lemma {:induction false} DriftIsPaidFor(readings: seq<Reading>)
    requires AllValid(readings)
    ensures var c := After(Clock(0, 0), readings);
            && c.lastMs >= Latest(readings) && c.counter <= COUNTER_MAX
            && 2049 * (c.lastMs - Latest(readings)) + (if c.counter > SEED_MAX then c.counter - SEED_MAX else 0) <= |readings|
  {
    if readings != [] {
      DriftIsPaidFor(readings[..|readings| - 1]);
    }
  }

  // After any number of calls the clock inside is ahead of the latest wall clock reading by
  // at most a 2049th of that number.
  lemma DriftIsBounded(readings: seq<Reading>)
    requires AllValid(readings)
    ensures var c := After(Clock(0, 0), readings);
            Latest(readings) <= c.lastMs <= Latest(readings) + |readings| / 2049
  {
    DriftIsPaidFor(readings);
  }

  // A clock stopped at its first reading, with every seed as high as it may be.
  function Stopped(n: nat): seq<Reading> {
    seq(n, _ => Reading(1, SEED_MAX, 0))
  }

  lemma {:induction false} StoppedClock(n: nat)
    ensures var c := After(Clock(0, 0), Stopped(n + 1));
            c == Clock(1 + n / 2049, SEED_MAX + n % 2049)
    ensures Latest(Stopped(n + 1)) == 1
  {
    var readings := Stopped(n + 1);
    assert readings[..n] == Stopped(n);
    if n == 0 {
      assert After(Clock(0, 0), readings[..0]) == Clock(0, 0);
    } else {
      StoppedClock(n - 1);
    }
  }

  // And no smaller bound holds: any number of milliseconds can be borrowed, at 2049 calls
  // each.
  lemma DriftBoundIsMet(d: nat)
    ensures exists readings ::
              && AllValid(readings) && |readings| == 2049 * d + 1
              && After(Clock(0, 0), readings).lastMs == Latest(readings) + d
  {
    StoppedClock(2049 * d);
    assert AllValid(Stopped(2049 * d + 1));
  }

  // --- the counter in a millisecond -----------------------------------------------------------

  // The millisecond changes exactly when the wall clock has passed it or its counter is full,
  // to the wall clock's or the next one; the counter then starts at the seed drawn, and
  // otherwise goes up by one.
  lemma TickExactly(c: Clock, r: Reading)
    requires ValidReading(r) && c.counter <= 0xFFF
    ensures var t := Tick(c, r);
            && (t.lastMs != c.lastMs <==> r.now > c.lastMs || c.counter == 0xFFF)
            && (t.lastMs != c.lastMs ==> t.counter == r.seed && t.lastMs == if r.now > c.lastMs then r.now else c.lastMs + 1)
            && (t.lastMs == c.lastMs ==> t.counter == c.counter + 1)
            && c.lastMs <= t.lastMs && r.now <= t.lastMs && r.seed <= 0x7FF
  {
  }

  // So of the calls in one millisecond each has the next number, from the seed the first drew.
  lemma {:induction false} NumberedFromTheSeed(c: Clock, readings: seq<Reading>, i: nat, j: nat)
    requires i <= j < |readings| && After(c, readings[..i]).lastMs != After(c, readings[..i + 1]).lastMs
    requires After(c, readings[..j + 1]).lastMs == After(c, readings[..i + 1]).lastMs
    ensures After(c, readings[..j + 1]).counter == readings[i].seed + (j - i)
    decreases j
  {
    assert readings[..j + 1][..j] == readings[..j];
    if i < j {
      ClockStays(c, readings[..j], i + 1);
      assert readings[..j][..i + 1] == readings[..i + 1];
      NumberedFromTheSeed(c, readings, i, j - 1);
    }
  }

  lemma ClockStays(c: Clock, readings: seq<Reading>, i: nat)
    requires i <= |readings|
    ensures After(c, readings[..i]).lastMs <= After(c, readings).lastMs
  {
    if i < |readings| {
      ClockMovesOn(c, readings, i);
    } else {
      assert readings[..i] == readings;
    }
  }
}

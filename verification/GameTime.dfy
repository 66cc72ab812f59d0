/**
 Millisecond time that wraps at 2^22, `shared/src/game_time.rs`. A `Panic` is the source's
 explicit panic or an arithmetic overflow of its 32-bit integers.
 */
module GameTime {

  const LIMIT: int := 0x40_0000
  const HALF_LIMIT: int := 0x20_0000

  type GameInstant = x: int | 0 <= x < 0x40_0000
  type u32 = x: int | 0 <= x < 0x1_0000_0000
  type i32 = x: int | -0x8000_0000 <= x < 0x8000_0000

  datatype Checked<T> = Value(value: T) | Panic

  /** The instant an unbounded time is shown as. */
  function Instant(x: int): GameInstant {
    x % 0x40_0000
  }

  function TimeSince(current: GameInstant, previous: GameInstant): int {
    if previous == current then 0
    else if previous < current then current - previous
    else (LIMIT - 1) - previous + current
  }

  function OffsetFromChecked(a: GameInstant, b: GameInstant): Checked<int> {
    var result := b - a;
    if -HALF_LIMIT <= result <= HALF_LIMIT - 1 then Value(result)
    else if b > a then
      var result := b - (a + LIMIT);
      if -HALF_LIMIT <= result <= HALF_LIMIT - 1 then Value(result) else Panic
    else
      var result := (b + LIMIT) - a;
      if -HALF_LIMIT <= result <= HALF_LIMIT - 1 then Value(result) else Panic
  }

  /** `offset_from` never panics: it is the one offset in the half range that leads from `a` to `b`. */
  function OffsetFrom(a: GameInstant, b: GameInstant): (d: int)
    ensures OffsetFromChecked(a, b) == Value(d)
    ensures -HALF_LIMIT <= d < HALF_LIMIT && Instant(a + d) == b
  {
    OffsetFromChecked(a, b).value
  }

  predicate IsMoreThan(a: GameInstant, b: GameInstant) {
    OffsetFrom(a, b) < 0
  }

  function AddMillis(a: GameInstant, millis: u32): Checked<GameInstant> {
    if a + millis >= 0x1_0000_0000 then Panic else Value((a + millis) % 0x40_0000)
  }

  function SubMillis(a: GameInstant, millis: u32): GameInstant {
    var millis := millis % 0x40_0000;
    if a >= millis then a - millis else LIMIT - (millis - a)
  }

  /** Negating the least `i32` overflows. */
  function AddSignedMillis(a: GameInstant, millis: i32): Checked<GameInstant> {
    if millis >= 0 then AddMillis(a, millis)
    else if millis == -0x8000_0000 then Panic
    else Value(SubMillis(a, -millis))
  }

  lemma InstantPeriod(x: int, y: int)
    ensures Instant(x) == Instant(y) <==> (x - y) % LIMIT == 0
  {
  }

  /** An instant is its time less a number of whole periods. */
  lemma Rounds(x: int) returns (k: int)
    ensures Instant(x) == x - 0x40_0000 * k
  {
    k := x / 0x40_0000;
  }

  lemma WholePeriods(x: int, y: int, k: int)
    requires x == y + 0x40_0000 * k
    ensures Instant(x) == Instant(y)
  {
  }

  /** Subtracting is going round the circle the other way, for any number of rounds. */
  lemma SubIsModular(a: GameInstant, millis: u32)
    ensures SubMillis(a, millis) == Instant(a - millis)
  {
    var m := millis % 0x40_0000;
    InstantPeriod(a - millis, a - m);
  }

  /** Signed addition is modular addition; it overflows only on the least `i32`. */
  lemma AddSignedIsModular(a: GameInstant, millis: i32)
    ensures AddSignedMillis(a, millis) == if millis == -0x8000_0000 then Panic else Value(Instant(a + millis))
  {
    if -0x8000_0000 < millis < 0 { SubIsModular(a, -millis); }
  }

  lemma SubUndoesAdd(a: GameInstant, millis: u32)
    ensures AddMillis(a, millis) == Panic <==> a + millis >= 0x1_0000_0000
    ensures AddMillis(a, millis).Value? ==> SubMillis(AddMillis(a, millis).value, millis) == a
    ensures AddMillis(SubMillis(a, millis), millis).Value? ==> AddMillis(SubMillis(a, millis), millis).value == a
  {
    SubIsModular(a, millis);
    if AddMillis(a, millis).Value? {
      SubIsModular(AddMillis(a, millis).value, millis);
    }
  }

  /** Adding the offset from one instant to another leads there, whatever the two instants. */
  lemma OffsetLeadsThere(a: GameInstant, b: GameInstant)
    ensures AddSignedMillis(a, OffsetFrom(a, b)) == Value(b)
  {
    AddSignedIsModular(a, OffsetFrom(a, b));
  }

  /** An offset is read back exactly when it lies in the half range. */
  lemma OffsetRoundTripsIff(a: GameInstant, millis: i32)
    requires millis != -0x8000_0000
    ensures AddSignedMillis(a, millis).Value?
    ensures OffsetFrom(a, AddSignedMillis(a, millis).value) == millis <==> -HALF_LIMIT <= millis < HALF_LIMIT
  {
    AddSignedIsModular(a, millis);
    var b := AddSignedMillis(a, millis).value;
    var d := OffsetFrom(a, b);
    InstantPeriod(a + d, a + millis);
  }

  /** Two shifts are one. */
  lemma ShiftsAdd(a: GameInstant, m: i32, n: i32)
    requires m != -0x8000_0000 && n != -0x8000_0000
    ensures AddSignedMillis(a, m).Value?
    ensures AddSignedMillis(AddSignedMillis(a, m).value, n) == Value(Instant(a + m + n))
  {
    hide AddSignedMillis, Instant;
    AddSignedIsModular(a, m);
    AddSignedIsModular(Instant(a + m), n);
    var k := Rounds(a + m);
    WholePeriods(Instant(a + m) + n, a + m + n, -k);
  }

  /** Within half a period the comparison is that of the unbounded times. */
  lemma WindowIsMoreThan(x: int, y: int)
    requires -HALF_LIMIT < x - y < HALF_LIMIT
    ensures IsMoreThan(Instant(x), Instant(y)) <==> x > y
    ensures OffsetFrom(Instant(x), Instant(y)) == y - x
  {
    var d := OffsetFrom(Instant(x), Instant(y));
    InstantPeriod(Instant(x) + d, y);
    assert (x + d - y) % LIMIT == 0;
  }

  /** At exactly half a period each of two instants is later than the other, and only there. */
  lemma BothLaterIff(a: GameInstant, b: GameInstant)
    ensures (IsMoreThan(a, b) && IsMoreThan(b, a)) <==> (a - b == HALF_LIMIT || b - a == HALF_LIMIT)
    ensures (!IsMoreThan(a, b) && !IsMoreThan(b, a)) <==> a == b
  {
  }

  /** `time_since` is the time gone by exactly when the clock has not wrapped; after a wrap it is one short. */
  lemma TimeSinceExactIff(current: GameInstant, previous: GameInstant)
    ensures TimeSince(current, previous) == (current - previous) % LIMIT <==> previous <= current
    ensures previous > current ==> TimeSince(current, previous) == (current - previous) % LIMIT - 1
  {
  }
}

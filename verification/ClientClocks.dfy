/**
 The client's three running instants and ticks, `client/src/connection/time_manager.rs`, and the
 tick events `client/src/client.rs` makes of them. What the source computes in `f32` enters as
 arbitrary functions and values: the duration of a number of ticks, the speed-up, the tick an
 instant falls in, the targets. Only the millisecond accumulator is kept, over `real`.
 */
module ClientClocks {
  import opened Wrapping
  import opened GameTime

  // ----- re-anchoring on a newer server tick -----

  datatype Anchor = Anchor(
    serverTick: u16, serverTickInstant: GameInstant,
    receiving: GameInstant, sending: GameInstant, receivable: GameInstant)

  /** Where a tick is expected, seen from the anchor; `millis` gives the duration of a number of ticks. */
  function TickToInstant(a: Anchor, tick: u16, millis: int -> i32): Checked<GameInstant> {
    AddSignedMillis(a.serverTickInstant, millis(WrappingDiff(a.serverTick, tick)))
  }

  function Received(a: Anchor, tick: u16, instant: GameInstant, millis: int -> i32): Checked<Anchor> {
    if !SequenceGreaterThan(tick, a.serverTick) then Value(a)
    else
      match TickToInstant(a, tick, millis)
      case Panic => Panic
      case Value(expected) =>
        var offset := OffsetFrom(expected, instant);
        Value(Anchor(tick, instant, AddSignedMillis(a.receiving, offset).value,
                     AddSignedMillis(a.sending, offset).value, AddSignedMillis(a.receivable, offset).value))
  }

  /** The distance from one instant to another round the circle. */
  function Gap(a: GameInstant, b: GameInstant): GameInstant {
    Instant(b - a)
  }

  predicate SameGaps(a: Anchor, b: Anchor) {
    && Gap(a.receiving, a.sending) == Gap(b.receiving, b.sending)
    && Gap(a.receivable, a.sending) == Gap(b.receivable, b.sending)
    && Gap(a.receivable, a.receiving) == Gap(b.receivable, b.receiving)
  }

  lemma ShiftKeepsGap(a: GameInstant, b: GameInstant, d: i32)
    requires d != -0x8000_0000
    ensures AddSignedMillis(a, d).Value? && AddSignedMillis(b, d).Value?
    ensures Gap(AddSignedMillis(a, d).value, AddSignedMillis(b, d).value) == Gap(a, b)
  {
    hide AddSignedMillis, Instant;
    AddSignedIsModular(a, d);
    AddSignedIsModular(b, d);
    var j := Rounds(a + d);
    var k := Rounds(b + d);
    WholePeriods(Instant(b + d) - Instant(a + d), b - a, j - k);
  }

  /** Moving an instant by the offset from `from` to `to` keeps its distance from the one as distance from the other. */
  lemma ShiftCarriesGap(from: GameInstant, to: GameInstant, x: GameInstant)
    ensures AddSignedMillis(x, OffsetFrom(from, to)).Value?
    ensures Gap(to, AddSignedMillis(x, OffsetFrom(from, to)).value) == Gap(from, x)
  {
    OffsetLeadsThere(from, to);
    ShiftKeepsGap(from, x, OffsetFrom(from, to));
  }

  lemma NoDistance(tick: u16, instant: GameInstant)
    ensures WrappingDiff(tick, tick) == 0 && AddSignedMillis(instant, 0) == Value(instant)
  {
  }

  /** A re-anchoring keeps the gaps, and each instant's distance from where the tick was expected becomes its distance from where it is. */
  lemma ReceivedKeepsGaps(a: Anchor, tick: u16, instant: GameInstant, millis: int -> i32)
    requires millis(0) == 0
    ensures var r := Received(a, tick, instant, millis);
            && (r.Panic? <==> SequenceGreaterThan(tick, a.serverTick) && millis(WrappingDiff(a.serverTick, tick)) == -0x8000_0000)
            && (r.Value? ==> SameGaps(a, r.value))
            && (r.Value? && SequenceGreaterThan(tick, a.serverTick) ==>
                var expected := TickToInstant(a, tick, millis);
                && expected.Value?
                && TickToInstant(r.value, tick, millis) == Value(instant)
                && Gap(instant, r.value.receiving) == Gap(expected.value, a.receiving)
                && Gap(instant, r.value.sending) == Gap(expected.value, a.sending)
                && Gap(instant, r.value.receivable) == Gap(expected.value, a.receivable))
  {
    hide Gap, Instant, AddSignedMillis, OffsetFrom, OffsetFromChecked, SequenceGreaterThan, WrappingDiff;
    if SequenceGreaterThan(tick, a.serverTick) {
      AddSignedIsModular(a.serverTickInstant, millis(WrappingDiff(a.serverTick, tick)));
      var e := TickToInstant(a, tick, millis);
      if e.Value? {
        var d := OffsetFrom(e.value, instant);
        ShiftKeepsGap(a.receiving, a.sending, d);
        ShiftKeepsGap(a.receivable, a.sending, d);
        ShiftKeepsGap(a.receivable, a.receiving, d);
        ShiftCarriesGap(e.value, instant, a.receiving);
        ShiftCarriesGap(e.value, instant, a.sending);
        ShiftCarriesGap(e.value, instant, a.receivable);
        NoDistance(tick, instant);
      }
    }
  }

  datatype Report = Report(tick: u16, instant: GameInstant)

  function Run(a: Anchor, reports: seq<Report>, millis: int -> i32): Checked<Anchor> {
    if reports == [] then Value(a)
    else
      match Run(a, reports[..|reports| - 1], millis)
      case Panic => Panic
      case Value(b) => Received(b, reports[|reports| - 1].tick, reports[|reports| - 1].instant, millis)
  }

  /** Any run of reports, in any order and however late, keeps the pairwise gaps of the three instants. */
  lemma {:induction false} EveryRunKeepsGaps(a: Anchor, reports: seq<Report>, millis: int -> i32)
    requires millis(0) == 0
    ensures Run(a, reports, millis).Value? ==> SameGaps(a, Run(a, reports, millis).value)
  {
    if reports != [] {
      var n := |reports| - 1;
      EveryRunKeepsGaps(a, reports[..n], millis);
      if Run(a, reports[..n], millis).Value? {
        ReceivedKeepsGaps(Run(a, reports[..n], millis).value, reports[n].tick, reports[n].instant, millis);
      }
    }
  }

  /** A report with the unbounded tick it is about. */
  datatype Sighting = Sighting(tick: int, instant: GameInstant)

  function Sent(sightings: seq<Sighting>): seq<Report> {
    seq(|sightings|, i requires 0 <= i < |sightings| => Report(Wrap(sightings[i].tick), sightings[i].instant))
  }

  /** The latest tick known and the first report of it; at the start, what the connection began with. */
  ghost predicate IsNewest(start: Sighting, sightings: seq<Sighting>, newest: Sighting) {
    && start.tick <= newest.tick
    && (forall k :: 0 <= k < |sightings| ==> sightings[k].tick <= newest.tick)
    && (newest.tick == start.tick ==> newest == start)
    && (newest.tick > start.tick ==>
          exists k :: 0 <= k < |sightings| && sightings[k] == newest && forall j :: 0 <= j < k ==> sightings[j].tick < newest.tick)
  }

  ghost function Newest(start: Sighting, sightings: seq<Sighting>): Sighting {
    if sightings == [] then start
    else
      var n := |sightings| - 1;
      var before := Newest(start, sightings[..n]);
      if sightings[n].tick > before.tick then sightings[n] else before
  }

  lemma {:induction false} NewestIsNewest(start: Sighting, sightings: seq<Sighting>)
    ensures IsNewest(start, sightings, Newest(start, sightings))
  {
    if sightings != [] {
      var n := |sightings| - 1;
      var before, after := Newest(start, sightings[..n]), Newest(start, sightings);
      NewestIsNewest(start, sightings[..n]);
      if after == before && before.tick > start.tick {
        var k :| 0 <= k < n && sightings[..n][k] == before && forall j :: 0 <= j < k ==> sightings[..n][j].tick < before.tick;
        assert sightings[k] == before && forall j :: 0 <= j < k ==> sightings[j] == sightings[..n][j];
      } else if after != before {
        assert sightings[n] == after && forall j :: 0 <= j < n ==> sightings[j] == sightings[..n][j];
      }
    }
  }

  /** No report is half the range or more from the newest before it. */
  ghost predicate InReach(start: Sighting, sightings: seq<Sighting>) {
    forall k :: 0 <= k < |sightings| ==> -HALF < sightings[k].tick - Newest(start, sightings[..k]).tick < HALF
  }

  lemma {:induction false} AnchorFollows(a: Anchor, tick: int, sightings: seq<Sighting>, millis: int -> i32)
    requires a.serverTick == Wrap(tick) && InReach(Sighting(tick, a.serverTickInstant), sightings)
    ensures var r, n := Run(a, Sent(sightings), millis), Newest(Sighting(tick, a.serverTickInstant), sightings);
            r.Value? ==> r.value.serverTick == Wrap(n.tick) && r.value.serverTickInstant == n.instant
  {
    if sightings != [] {
      var start := Sighting(tick, a.serverTickInstant);
      var n := |sightings| - 1;
      var before := sightings[..n];
      assert Sent(sightings)[..n] == Sent(before);
      assert forall k :: 0 <= k < n ==> before[..k] == sightings[..k] && before[k] == sightings[k];
      AnchorFollows(a, tick, before, millis);
      WindowOrder(sightings[n].tick, Newest(start, before).tick);
      hide TickToInstant, AddSignedMillis, OffsetFrom, SequenceGreaterThan, Wrap;
    }
  }

  /** Every run of reports, in whatever order: the anchor is the newest tick reported, as first reported. */
  lemma AnchorIsNewest(a: Anchor, tick: int, sightings: seq<Sighting>, millis: int -> i32) returns (newest: Sighting)
    requires a.serverTick == Wrap(tick) && InReach(Sighting(tick, a.serverTickInstant), sightings)
    ensures IsNewest(Sighting(tick, a.serverTickInstant), sightings, newest)
    ensures var r := Run(a, Sent(sightings), millis);
            r.Value? ==> r.value.serverTick == Wrap(newest.tick) && r.value.serverTickInstant == newest.instant
  {
    newest := Newest(Sighting(tick, a.serverTickInstant), sightings);
    NewestIsNewest(Sighting(tick, a.serverTickInstant), sightings);
    AnchorFollows(a, tick, sightings, millis);
  }

  // ----- advancing -----

  /** What an advance of one instant and its tick depends on. */
  datatype Pace = Pace(target: GameInstant, stretch: (u32, int) -> u32, toTick: GameInstant -> u16)

  datatype Hand = Hand(tick: u16, instant: GameInstant)

  /** The instant moves on by the stretched time but not past its target; the tick follows unless it would go back. */
  function Adjusted(h: Hand, pace: Pace, elapsed: u32): Checked<Hand> {
    var next := AddMillis(h.instant, elapsed);
    if next.Panic? then Panic
    else
      var moved := AddMillis(h.instant, pace.stretch(elapsed, OffsetFrom(next.value, pace.target)));
      if moved.Panic? then Panic
      else
        var instant := if IsMoreThan(moved.value, pace.target) then pace.target else moved.value;
        var tick := pace.toTick(instant);
        Value(Hand(if SequenceLessThan(tick, h.tick) then h.tick else tick, instant))
  }

  /** An adjusted instant is at its target or short of it, and a tick never moves back, nor forward by more than half the range. */
  lemma AdjustedInBounds(h: Hand, pace: Pace, elapsed: u32)
    requires Adjusted(h, pace, elapsed).Value?
    ensures var h' := Adjusted(h, pace, elapsed).value;
            && !IsMoreThan(h'.instant, pace.target)
            && Forward(h.tick, h'.tick) && !SequenceLessThan(h'.tick, h.tick)
            && (h'.tick == pace.toTick(h'.instant) || (h'.tick == h.tick && SequenceLessThan(pace.toTick(h'.instant), h.tick)))
  {
    var h' := Adjusted(h, pace, elapsed).value;
    ForwardOrBack(h.tick, pace.toTick(h'.instant));
    ForwardOrBack(h.tick, h.tick);
  }

  /** A hand shows the unbounded time `x` and its target `y`, and neither the plain nor the stretched time leads half a period apart. */
  ghost predicate Paced(h: Hand, pace: Pace, elapsed: u32, x: int, y: int) {
    && h.instant == Instant(x) && pace.target == Instant(y) && -HALF_LIMIT < x + elapsed - y < HALF_LIMIT
    && -HALF_LIMIT < x + pace.stretch(elapsed, y - (x + elapsed)) - y < HALF_LIMIT
  }

  /** Where the stretched time leads, or the target if that is earlier; the stretch is asked for the distance left by the plain time. */
  function Arrived(pace: Pace, elapsed: u32, x: int, y: int): GameInstant {
    var to := x + pace.stretch(elapsed, y - (x + elapsed));
    Instant(if to < y then to else y)
  }

  lemma AdjustedIsEarlier(h: Hand, pace: Pace, elapsed: u32, x: int, y: int)
    requires Paced(h, pace, elapsed, x, y)
    ensures var r, stretched := Adjusted(h, pace, elapsed), pace.stretch(elapsed, y - (x + elapsed));
            if r.Value? then r.value.instant == Arrived(pace, elapsed, x, y)
            else h.instant + elapsed >= 0x1_0000_0000 || h.instant + stretched >= 0x1_0000_0000
  {
    WindowIsMoreThan(x + elapsed, y);
    var stretched := pace.stretch(elapsed, y - (x + elapsed));
    WindowIsMoreThan(x + stretched, y);
    AddedToShown(x, elapsed);
    AddedToShown(x, stretched);
    hide Instant, OffsetFrom, IsMoreThan, SequenceLessThan;
  }

  lemma AddedToShown(x: int, millis: u32)
    ensures AddMillis(Instant(x), millis).Value? ==> AddMillis(Instant(x), millis).value == Instant(x + millis)
  {
  }

  method AdjustTime(h: Hand, pace: Pace, elapsed: u32) returns (r: Checked<Hand>)
    ensures r == Adjusted(h, pace, elapsed)
  {
    var defaultNext := AddMillis(h.instant, elapsed);
    if defaultNext.Panic? {
      return Panic;
    }
    var speed := OffsetFrom(defaultNext.value, pace.target);
    var moved := AddMillis(h.instant, pace.stretch(elapsed, speed));
    if moved.Panic? {
      return Panic;
    }
    var tick, instant := h.tick, moved.value;
    if IsMoreThan(instant, pace.target) {
      instant := pace.target;
    }
    var newTick := pace.toTick(instant);
    if !SequenceLessThan(newTick, tick) {
      tick := newTick;
    }
    return Value(Hand(tick, instant));
  }

  datatype Hands = Hands(receiving: Hand, sending: Hand, receivable: Hand)

  /** All three advance by the same time, each at its own pace. */
  function Advanced(hs: Hands, r: Pace, s: Pace, v: Pace, elapsed: u32): Checked<Hands> {
    var receiving := Adjusted(hs.receiving, r, elapsed);
    var sending := Adjusted(hs.sending, s, elapsed);
    var receivable := Adjusted(hs.receivable, v, elapsed);
    if receiving.Value? && sending.Value? && receivable.Value?
    then Value(Hands(receiving.value, sending.value, receivable.value)) else Panic
  }

  /** In unbounded time, each hand goes on towards its own target at its own pace. */
  lemma AdvancedIsEarlier(hs: Hands, r: Pace, s: Pace, v: Pace, elapsed: u32, from: (int, int, int), to: (int, int, int))
    requires Paced(hs.receiving, r, elapsed, from.0, to.0)
    requires Paced(hs.sending, s, elapsed, from.1, to.1)
    requires Paced(hs.receivable, v, elapsed, from.2, to.2)
    ensures var a := Advanced(hs, r, s, v, elapsed);
            a.Value? ==>
              && a.value.receiving.instant == Arrived(r, elapsed, from.0, to.0)
              && a.value.sending.instant == Arrived(s, elapsed, from.1, to.1)
              && a.value.receivable.instant == Arrived(v, elapsed, from.2, to.2)
  {
    AdjustedIsEarlier(hs.receiving, r, elapsed, from.0, to.0);
    AdjustedIsEarlier(hs.sending, s, elapsed, from.1, to.1);
    AdjustedIsEarlier(hs.receivable, v, elapsed, from.2, to.2);
    hide Adjusted, Arrived, Paced;
  }

  datatype Drop = Drop(due: bool, millis: u32, left: real)

  /** Whole milliseconds out of the accumulator, to the nearest; `as u32` saturates. */
  function Accumulated(held: real): Drop {
    if held < 1.0 then Drop(false, 0, held)
    else
      var rounded := (held + 0.5).Floor;
      var millis: u32 := if rounded <= 0xFFFF_FFFF then rounded else 0xFFFF_FFFF;
      Drop(true, millis, held - millis as real)
  }

  /** No time is lost to rounding, and what is held on to stays below one millisecond. */
  lemma AccumulatedConserves(held: real)
    requires -0.5 <= held < 4294967295.0
    ensures Accumulated(held).millis as real + Accumulated(held).left == held
    ensures -0.5 <= Accumulated(held).left < 1.0
    ensures Accumulated(held).due <==> held >= 1.0
    ensures Accumulated(held).due ==> Accumulated(held).left < 0.5
    ensures Accumulated(held).due <==> Accumulated(held).millis >= 1
  {
  }

  /** Not at all, or ahead by at most half the range. */
  predicate Forward(from: u16, to: u16) {
    Ahead(to, from) <= HALF
  }

  lemma ForwardOrBack(from: u16, to: u16)
    ensures !SequenceLessThan(to, from) ==> Forward(from, to)
    ensures Forward(from, from)
  {
    GreaterByDistance(from, to);
  }

  // ----- the objects -----

  /** A stretch of ticks, exclusive of the first; `None` when the tick did not change. */
  datatype Range = None | Range(prev: u16, current: u16)

  class TimeManager {
    var serverTick: u16
    var serverTickInstant: GameInstant
    var receivingTick: u16
    var sendingTick: u16
    var receivableTick: u16
    var receivingInstant: GameInstant
    var sendingInstant: GameInstant
    var receivableInstant: GameInstant
    var accumulator: real
    ghost var elapsedTotal: real
    ghost var millisTotal: nat

    function AnchorOf(): Anchor
      reads this
    {
      Anchor(serverTick, serverTickInstant, receivingInstant, sendingInstant, receivableInstant)
    }

    /** No time is lost to rounding: what has passed is what was handed on and what is still held. */
    ghost predicate Valid()
      reads this
    {
      elapsedTotal == millisTotal as real + accumulator
    }

    constructor (a: Anchor, receiving: u16, sending: u16, receivable: u16)
      ensures Valid() && AnchorOf() == a
      ensures receivingTick == receiving && sendingTick == sending && receivableTick == receivable
      ensures accumulator == 0.0
    {
      serverTick, serverTickInstant := a.serverTick, a.serverTickInstant;
      receivingTick, sendingTick, receivableTick := receiving, sending, receivable;
      receivingInstant, sendingInstant, receivableInstant := a.receiving, a.sending, a.receivable;
      accumulator, elapsedTotal, millisTotal := 0.0, 0.0, 0;
    }

    method RecvTickInstant(tick: u16, instant: GameInstant, millis: int -> i32) returns (panicked: bool)
      requires Valid()
      modifies this`serverTick, this`serverTickInstant, this`receivingInstant, this`sendingInstant, this`receivableInstant
      ensures panicked == Received(old(AnchorOf()), tick, instant, millis).Panic?
      ensures AnchorOf() == if panicked then old(AnchorOf()) else Received(old(AnchorOf()), tick, instant, millis).value
    {
      if !SequenceGreaterThan(tick, serverTick) {
        return false;
      }
      var expected := TickToInstant(AnchorOf(), tick, millis);
      if expected.Panic? {
        return true;
      }
      var offset := OffsetFrom(expected.value, instant);
      AddSignedIsModular(receivingInstant, offset);
      AddSignedIsModular(sendingInstant, offset);
      AddSignedIsModular(receivableInstant, offset);
      serverTick, serverTickInstant := tick, instant;
      receivingInstant := AddSignedMillis(receivingInstant, offset).value;
      sendingInstant := AddSignedMillis(sendingInstant, offset).value;
      receivableInstant := AddSignedMillis(receivableInstant, offset).value;
      return false;
    }

    function HandsOf(): Hands
      reads this
    {
      Hands(Hand(receivingTick, receivingInstant), Hand(sendingTick, sendingInstant), Hand(receivableTick, receivableInstant))
    }

    method Accumulate(elapsed: real) returns (due: bool, millis: u32)
      requires Valid()
      modifies this`accumulator, this`elapsedTotal, this`millisTotal
      ensures Valid() && Drop(due, millis, accumulator) == Accumulated(old(accumulator) + elapsed)
    {
      accumulator := accumulator + elapsed;
      elapsedTotal := elapsedTotal + elapsed;
      if accumulator < 1.0 {
        return false, 0;
      }
      var rounded := (accumulator + 0.5).Floor;
      millis := if rounded <= 0xFFFF_FFFF then rounded else 0xFFFF_FFFF;
      accumulator := accumulator - millis as real;
      millisTotal := millisTotal + millis;
      return true, millis;
    }

    method CollectTicks(elapsed: real, r: Pace, s: Pace, v: Pace) returns (panicked: bool, receiving: Range, sending: Range)
      requires Valid()
      modifies this
      ensures Valid() && serverTick == old(serverTick) && serverTickInstant == old(serverTickInstant)
      ensures var drop := Accumulated(old(accumulator) + elapsed);
              var advanced := Advanced(old(HandsOf()), r, s, v, drop.millis);
              && accumulator == drop.left
              && panicked == (drop.due && advanced.Panic?)
              && (!panicked ==> HandsOf() == if drop.due then advanced.value else old(HandsOf()))
      ensures !panicked ==> receiving == Changed(old(receivingTick), receivingTick) && Forward(old(receivingTick), receivingTick)
      ensures !panicked ==> sending == Changed(old(sendingTick), sendingTick) && Forward(old(sendingTick), sendingTick)
    {
      var prevReceiving, prevSending := receivingTick, sendingTick;
      ForwardOrBack(receivingTick, receivingTick);
      ForwardOrBack(sendingTick, sendingTick);
      hide Adjusted, Forward, Accumulated;
      var due, millis := Accumulate(elapsed);
      if !due {
        return false, None, None;
      }
      var hand := AdjustTime(Hand(receivingTick, receivingInstant), r, millis);
      if hand.Panic? {
        return true, None, None;
      }
      AdjustedInBounds(Hand(receivingTick, receivingInstant), r, millis);
      receivingTick, receivingInstant := hand.value.tick, hand.value.instant;
      hand := AdjustTime(Hand(sendingTick, sendingInstant), s, millis);
      if hand.Panic? {
        return true, None, None;
      }
      AdjustedInBounds(Hand(sendingTick, sendingInstant), s, millis);
      sendingTick, sendingInstant := hand.value.tick, hand.value.instant;
      hand := AdjustTime(Hand(receivableTick, receivableInstant), v, millis);
      if hand.Panic? {
        return true, None, None;
      }
      receivableTick, receivableInstant := hand.value.tick, hand.value.instant;
      receiving := if receivingTick != prevReceiving then Range(prevReceiving, receivingTick) else None;
      sending := if sendingTick != prevSending then Range(prevSending, sendingTick) else None;
      panicked := false;
    }
  }

  function Changed(before: u16, after: u16): Range {
    if before == after then None else Range(before, after)
  }

  // ----- tick events -----

  /** `count` ticks, the first one after `start`. */
  function TicksAfter(start: u16, count: nat): (s: seq<u16>)
    ensures |s| == count
    ensures forall i :: 0 <= i < count ==> s[i] == WrappingAdd(start, i + 1)
  {
    seq(count, i => WrappingAdd(start, i + 1))
  }

  lemma AddTwice(start: u16, m: nat, n: nat)
    ensures WrappingAdd(WrappingAdd(start, m), n) == WrappingAdd(start, m + n)
  {
  }

  lemma TicksContinue(start: u16, m: nat, n: nat)
    ensures TicksAfter(start, m) + TicksAfter(WrappingAdd(start, m), n) == TicksAfter(start, m + n)
    ensures WrappingAdd(WrappingAdd(start, m), n) == WrappingAdd(start, m + n)
  {
    hide WrappingAdd, TicksAfter;
    AddTwice(start, m, n);
    var s, t := TicksAfter(start, m) + TicksAfter(WrappingAdd(start, m), n), TicksAfter(start, m + n);
    forall i | 0 <= i < m + n ensures s[i] == t[i] {
      if i >= m { AddTwice(start, m, i - m + 1); }
    }
  }

  lemma TicksGrow(start: u16, n: nat)
    ensures TicksAfter(start, n + 1) == TicksAfter(start, n) + [WrappingAdd(start, n + 1)]
  {
    hide WrappingAdd;
  }

  /** The `n`-th tick after `prev` is `current` exactly when `n` is the distance, which it counts down. */
  lemma ComesRound(prev: u16, current: u16, n: nat)
    requires n <= Ahead(current, prev)
    ensures Ahead(current, WrappingAdd(prev, n)) == Ahead(current, prev) - n
    ensures WrappingAdd(prev, n) == current <==> n == Ahead(current, prev)
  {
  }

  lemma AheadWhenApart(prev: u16, current: u16)
    requires prev != current
    ensures Ahead(current, prev) >= 1
  {
  }

  /** Pushes every tick after `prev` up to `current`; it comes round to `current` and stops there. */
  method PushTicks(prev: u16, current: u16) returns (ticks: seq<u16>)
    requires prev != current
    ensures ticks == TicksAfter(prev, Ahead(current, prev))
    ensures ticks != [] && ticks[|ticks| - 1] == current && current !in ticks[..|ticks| - 1]
  {
    hide WrappingAdd, Ahead, TicksAfter;
    AheadWhenApart(prev, current);
    var index := WrappingAdd(prev, 1);
    ticks := [];
    while true
      invariant ticks == TicksAfter(prev, |ticks|) && current !in ticks
      invariant index == WrappingAdd(prev, |ticks| + 1)
      invariant |ticks| + 1 <= Ahead(current, prev)
      decreases Ahead(current, prev) - |ticks|
    {
      ComesRound(prev, current, |ticks| + 1);
      TicksGrow(prev, |ticks|);
      AddTwice(prev, |ticks| + 1, 1);
      ticks := ticks + [index];
      if index == current {
        break;
      }
      index := WrappingAdd(index, 1);
    }
  }

  /** A stream that has come to `prev` comes to `current` by the ticks in between. */
  lemma StreamGoesOn(first: u16, done: seq<u16>, prev: u16, current: u16, more: seq<u16>)
    requires done == TicksAfter(first, |done|) && prev == WrappingAdd(first, |done|)
    requires if prev == current then more == [] else more == TicksAfter(prev, Ahead(current, prev))
    ensures done + more == TicksAfter(first, |done + more|) && current == WrappingAdd(first, |done + more|)
    ensures Forward(prev, current) ==> |more| <= HALF
  {
    if prev == current {
      assert done + more == done;
    } else {
      ComesRound(prev, current, |more|);
      hide WrappingAdd, Ahead, TicksAfter;
      TicksContinue(first, |done|, |more|);
    }
  }

  class Client {
    const timeManager: TimeManager
    ghost const firstReceiving: u16
    ghost const firstSending: u16
    // every tick event taken since the connection was made
    ghost var serverTicks: seq<u16>
    ghost var clientTicks: seq<u16>

    /** Both streams run on from their first tick without gap or repeat, and end at the current tick. */
    ghost predicate Valid()
      reads this, timeManager
    {
      && timeManager.Valid()
      && serverTicks == TicksAfter(firstReceiving, |serverTicks|)
      && timeManager.receivingTick == WrappingAdd(firstReceiving, |serverTicks|)
      && clientTicks == TicksAfter(firstSending, |clientTicks|)
      && timeManager.sendingTick == WrappingAdd(firstSending, |clientTicks|)
    }

    constructor (t: TimeManager)
      requires t.Valid()
      ensures Valid() && timeManager == t && serverTicks == [] && clientTicks == []
    {
      timeManager := t;
      firstReceiving, firstSending := t.receivingTick, t.sendingTick;
      serverTicks, clientTicks := [], [];
    }

    /** One call advances each stream by at most half the range; after a panic there is no client to speak of. */
    method TakeTickEvents(elapsed: real, r: Pace, s: Pace, v: Pace) returns (panicked: bool, server: seq<u16>, client: seq<u16>)
      requires Valid()
      modifies this, timeManager
      ensures !panicked ==> Valid()
      ensures var drop := Accumulated(old(timeManager.accumulator) + elapsed);
              panicked == (drop.due && Advanced(old(timeManager.HandsOf()), r, s, v, drop.millis).Panic?)
      ensures !panicked ==> serverTicks == old(serverTicks) + server && clientTicks == old(clientTicks) + client
      ensures |server| <= HALF && |client| <= HALF
    {
      hide Adjusted, Accumulated, TicksAfter, WrappingAdd, Ahead, Forward;
      var receiving, sending;
      panicked, receiving, sending := timeManager.CollectTicks(elapsed, r, s, v);
      server, client := [], [];
      if panicked {
        return;
      }
      if receiving.Range? {
        server := PushTicks(receiving.prev, receiving.current);
      }
      if sending.Range? {
        client := PushTicks(sending.prev, sending.current);
      }
      StreamGoesOn(firstReceiving, serverTicks, old(timeManager.receivingTick), timeManager.receivingTick, server);
      StreamGoesOn(firstSending, clientTicks, old(timeManager.sendingTick), timeManager.sendingTick, client);
      serverTicks, clientTicks := serverTicks + server, clientTicks + client;
    }
  }
}

/**
 The client side of a tick-buffered channel
 (`client/src/connection/channel_tick_buffer_sender.rs`): messages are kept per
 tick, newest tick first, and resent until acknowledged or out of reach.

 The buffer stores wrapped ticks. Its meaning is a `Log` over unbounded ticks,
 carried as a ghost field, in which all ticks lie within half the `u16` range.
 */
module TickBufferSender {
  import opened Options
  import opened Wrapping
  import opened BitCodec
  import opened TickBufferWire

  /** `(Tick, MessageMap)`: slot `i` is `None` once message `i` has been acknowledged. */
  datatype Entry = Entry(tick: u16, list: seq<Option<Message>>)

  /** The same with its unbounded tick. */
  datatype Slots = Slots(tick: int, list: seq<Option<Message>>)

  type Log = seq<Slots>

  /** Newest first, all within half the range of one another. */
  ghost predicate Ordered(log: Log) {
    forall i, j :: 0 <= i < j < |log| ==> 0 < log[i].tick - log[j].tick < HALF
  }

  ghost predicate Near(log: Log, tick: int) {
    forall i :: 0 <= i < |log| ==> -HALF < log[i].tick - tick < HALF
  }

  ghost predicate Inhabited(log: Log) {
    forall i :: 0 <= i < |log| ==> log[i].list != []
  }

  ghost predicate Wraps(buffer: seq<Entry>, log: Log) {
    && |buffer| == |log|
    && forall i :: 0 <= i < |log| ==> buffer[i] == Entry(Wrap(log[i].tick), log[i].list)
  }

  // ----- specification -----

  ghost function Pushed(log: Log, capacity: nat, tick: int, message: Message): Log {
    if log != [] && tick == log[0].tick then log[0 := Slots(tick, log[0].list + [Some(message)])]
    else if log != [] && tick < log[0].tick then log
    else
      var grown := [Slots(tick, [Some(message)])] + log;
      if |grown| > capacity then grown[..capacity] else grown
  }

  ghost function DroppedThrough(log: Log, tick: int): Log {
    if log == [] || tick < log[|log| - 1].tick then log
    else DroppedThrough(log[..|log| - 1], tick)
  }

  function Cleared(list: seq<Option<Message>>, index: nat): seq<Option<Message>> {
    if index < |list| then list[index := None] else list
  }

  ghost function Acknowledged(log: Log, tick: int, index: nat): Log {
    seq(|log|, i requires 0 <= i < |log| =>
      if log[i].tick == tick then Slots(tick, Cleared(log[i].list, index)) else log[i])
  }

  /** The unacknowledged messages of one tick from slot `from` on, with their indices truncated to `u8`. */
  function Unacknowledged(list: seq<Option<Message>>, from: nat): seq<Indexed>
    requires from <= |list|
    decreases |list| - from
  {
    if from == |list| then []
    else
      match list[from]
      case None => Unacknowledged(list, from + 1)
      case Some(m) => [Indexed(from % 0x100, m)] + Unacknowledged(list, from + 1)
  }

  ghost function Groups(log: Log): seq<Group> {
    seq(|log|, i requires 0 <= i < |log| => Group(Wrap(log[i].tick), Unacknowledged(log[i].list, 0)))
  }

  /** What one collect appends: everything, unless the newest buffered tick is past the sending tick; then nothing. */
  ghost function Collected(log: Log, sending: int): seq<Group> {
    if log != [] && log[0].tick > sending then [] else Groups(log)
  }

  lemma PushKeepsOrder(log: Log, capacity: nat, tick: int, message: Message)
    requires Ordered(log) && Inhabited(log) && |log| <= capacity && Near(log, tick)
    ensures var log' := Pushed(log, capacity, tick, message);
            Ordered(log') && Inhabited(log') && |log'| <= capacity
  {
  }

  // ----- the buffer -----

  class OutgoingMessages {
    var buffer: seq<Entry>
    const capacity: nat
    ghost var log: Log

    ghost predicate Valid()
      reads this
    {
      && Wraps(buffer, log)
      && Ordered(log) && Inhabited(log)
      && |log| <= capacity
    }

    constructor (capacity: nat)
      ensures Valid() && log == [] && this.capacity == capacity
    {
      this.capacity := capacity;
      buffer, log := [], [];
    }

    method Push(tick: u16, message: Message, ghost now: int)
      requires Valid()
      requires tick == Wrap(now) && Near(log, now)
      modifies this
      ensures Valid()
      ensures log == Pushed(old(log), capacity, now, message)
    {
      if buffer != [] {
        var front := buffer[0];
        WindowOrder(now, log[0].tick);
        if tick == front.tick {
          buffer := buffer[0 := Entry(tick, front.list + [Some(message)])];
          log := log[0 := Slots(now, log[0].list + [Some(message)])];
          PushKeepsOrder(old(log), capacity, now, message);
          return;
        }
        if SequenceLessThan(tick, front.tick) {
          return;
        }
      }
      buffer := [Entry(tick, [Some(message)])] + buffer;
      log := [Slots(now, [Some(message)])] + log;
      ghost var grown := log;
      while |buffer| > capacity
        invariant Wraps(buffer, log)
        invariant log <= grown
        invariant if |grown| > capacity then |log| >= capacity else log == grown
      {
        buffer := buffer[..|buffer| - 1];
        log := log[..|log| - 1];
      }
      PushKeepsOrder(old(log), capacity, now, message);
    }

    method PopBackUntilExcluding(until: u16, ghost bound: int)
      requires Valid()
      requires until == Wrap(bound) && Near(log, bound)
      modifies this
      ensures Valid()
      ensures log == DroppedThrough(old(log), bound)
    {
      while true
        invariant Valid() && Near(log, bound)
        invariant DroppedThrough(log, bound) == DroppedThrough(old(log), bound)
        decreases |buffer|
      {
        if buffer == [] {
          return;
        }
        WindowOrder(bound, log[|log| - 1].tick);
        if SequenceLessThan(until, buffer[|buffer| - 1].tick) {
          return;
        }
        buffer := buffer[..|buffer| - 1];
        log := log[..|log| - 1];
      }
    }

    /** Scans from the oldest tick up and gives up at the first later one. */
    method RemoveMessage(tick: u16, index: u8, ghost of: int)
      requires Valid()
      requires tick == Wrap(of) && Near(log, of)
      modifies this
      ensures Valid()
      ensures log == Acknowledged(old(log), of, index)
    {
      hide SequenceGreaterThan, Wrap;
      ghost var target := Acknowledged(log, of, index);
      if |buffer| == 0 {
        return;
      }
      var i := |buffer|;
      while true
        invariant 0 < i <= |log| == |target|
        invariant Wraps(buffer, log) && |log| == |old(log)|
        invariant forall k :: 0 <= k < i ==> log[k] == old(log)[k]
        invariant forall k :: i <= k < |log| ==> log[k] == target[k]
        decreases i
      {
        i := i - 1;
        WindowOrder(log[i].tick, of);
        if buffer[i].tick == tick {
          var list := Cleared(buffer[i].list, index);
          buffer := buffer[i := Entry(tick, list)];
          log := log[i := Slots(of, list)];
          assert |list| != 0;
        } else if SequenceGreaterThan(buffer[i].tick, tick) {
          return;
        }
        if i == 0 {
          return;
        }
      }
    }
  }

  // ----- the channel -----

  /** How `write_messages` ends: the number of groups written, or one of its two panics. */
  datatype Outcome = Wrote(count: nat) | NegativeDiff | TooBig

  function Size(c: PayloadCodec, last: u16, g: Group): nat {
    1 + |GroupBits(c, last, g)|
  }

  datatype Packing = Packing(outcome: Outcome, bits: Bits)

  /** What `write_messages` puts into `free` bits, following the tick `last`. */
  ghost function Pack(c: PayloadCodec, queue: seq<Group>, free: nat, last: u16, hasWritten: bool): Packing
    decreases |queue|
  {
    if queue == [] then Packing(Wrote(0), [])
    else
      var g := queue[0];
      if !Encodable(last, g.tick) then Packing(NegativeDiff, [])
      else if Size(c, last, g) > free then Packing(if hasWritten then Wrote(0) else TooBig, [])
      else After(c, last, g, Pack(c, queue[1..], free - Size(c, last, g), g.tick, true))
  }

  ghost function After(c: PayloadCodec, last: u16, g: Group, p: Packing): Packing {
    Packing(Shift(p.outcome, 1), [true] + (GroupBits(c, last, g) + p.bits))
  }

  lemma PackStep(c: PayloadCodec, queue: seq<Group>, free: nat, last: u16, hasWritten: bool)
    ensures Pack(c, queue, free, last, hasWritten) ==
            if queue == [] then Packing(Wrote(0), [])
            else if !Encodable(last, queue[0].tick) then Packing(NegativeDiff, [])
            else if Size(c, last, queue[0]) > free then Packing(if hasWritten then Wrote(0) else TooBig, [])
            else After(c, last, queue[0], Pack(c, queue[1..], free - Size(c, last, queue[0]), queue[0].tick, true))
  {
  }

  ghost function Shift(o: Outcome, n: nat): Outcome {
    match o
    case Wrote(count) => Wrote(count + n)
    case panic => panic
  }

  /** What an acknowledgement of the packet will name, message by message. */
  function GroupReceipts(tick: u16, messages: seq<Indexed>): (r: seq<(u16, u8)>)
    ensures |r| == |messages| && forall i :: 0 <= i < |r| ==> r[i] == (tick, messages[i].index)
  {
    seq(|messages|, i requires 0 <= i < |messages| => (tick, messages[i].index))
  }

  function Receipts(groups: seq<Group>): seq<(u16, u8)> {
    if groups == [] then []
    else Receipts(groups[..|groups| - 1]) + GroupReceipts(groups[|groups| - 1].tick, groups[|groups| - 1].messages)
  }

  lemma NoReceipts(groups: seq<Group>)
    ensures Receipts(groups[..0]) == []
  {
  }

  lemma ReceiptsStep(groups: seq<Group>, n: nat)
    requires n < |groups|
    ensures Receipts(groups[..n + 1]) == Receipts(groups[..n]) + GroupReceipts(groups[n].tick, groups[n].messages)
  {
    assert groups[..n + 1][..n] == groups[..n];
  }

  class ChannelTickBufferSender {
    const sending: OutgoingMessages
    var outgoing: seq<Group>
    var lastSent: u16
    var neverSent: bool

    ghost predicate Valid()
      reads this, sending
    {
      sending.Valid() && neverSent
    }

    constructor (capacity: nat)
      ensures Valid() && fresh(sending)
      ensures sending.log == [] && outgoing == [] && sending.capacity == capacity
    {
      sending := new OutgoingMessages(capacity);
      outgoing, lastSent, neverSent := [], 0, true;
    }

    /**
     The guard compares with the last sending tick, but `never_sent` is set to true
     again instead of false, so every call collects.
     */
    method CollectMessages(sendingTick: u16, receivableTick: u16, ghost now: int, ghost bound: int)
      requires Valid()
      requires sendingTick == Wrap(now) && Near(sending.log, now)
      requires receivableTick == Wrap(bound) && Near(sending.log, bound)
      modifies this, sending
      ensures Valid()
      ensures sending.log == DroppedThrough(old(sending.log), bound)
      ensures outgoing == old(outgoing) + Collected(sending.log, now)
    {
      hide SequenceGreaterThan, Wrap, Unacknowledged, DroppedThrough;
      if SequenceGreaterThan(sendingTick, lastSent) || neverSent {
        sending.PopBackUntilExcluding(receivableTick, bound);
        DropIsPrefix(old(sending.log), bound);
        lastSent := sendingTick;
        neverSent := true;
        ghost var log := sending.log;
        var i := 0;
        while i < |sending.buffer|
          modifies this`outgoing
          invariant 0 <= i <= |log|
          invariant outgoing == old(outgoing) + Groups(log)[..i]
          invariant forall k :: 0 <= k < i ==> log[k].tick <= now
        {
          WindowOrder(log[i].tick, now);
          if SequenceGreaterThan(sending.buffer[i].tick, sendingTick) {
            break;
          }
          outgoing := outgoing + [Group(sending.buffer[i].tick, Unacknowledged(sending.buffer[i].list, 0))];
          i := i + 1;
        }
      }
    }

    method SendMessage(hostTick: u16, message: Message, ghost now: int)
      requires Valid()
      requires hostTick == Wrap(now) && Near(sending.log, now)
      modifies sending
      ensures Valid()
      ensures sending.log == Pushed(old(sending.log), sending.capacity, now, message)
    {
      sending.Push(hostTick, message, now);
    }

    method NotifyMessageDelivered(tick: u16, index: u8, ghost of: int)
      requires Valid()
      requires tick == Wrap(of) && Near(sending.log, of)
      modifies sending
      ensures Valid()
      ensures sending.log == Acknowledged(old(sending.log), of, index)
    {
      sending.RemoveMessage(tick, index, of);
    }

    method WriteMessages(c: PayloadCodec, w: BitWriter, hostTick: u16, hasWritten: bool)
      returns (outcome: Outcome, wrote: bool, output: seq<(u16, u8)>)
      requires |w.bits| <= w.maxBits
      modifies this`outgoing, w`bits
      ensures var p := Pack(c, old(outgoing), w.maxBits - |old(w.bits)|, hostTick, hasWritten);
              && outcome == p.outcome
              && (outcome.Wrote? ==>
                    && outcome.count <= |old(outgoing)|
                    && outgoing == old(outgoing)[outcome.count..]
                    && w.bits == old(w.bits) + p.bits
                    && wrote == (hasWritten || outcome.count > 0)
                    && output == Receipts(old(outgoing)[..outcome.count]))
    {
      hide GroupBits, Encodable, Pack, Receipts;
      var last := hostTick;
      wrote, output := hasWritten, [];
      NoReceipts(outgoing);
      var n: nat := 0;
      ghost var all, start := outgoing, w.bits;
      ghost var whole := Pack(c, outgoing, w.maxBits - |w.bits|, hostTick, hasWritten);
      ghost var rest := whole;
      PackStep(c, outgoing, w.maxBits - |w.bits|, hostTick, hasWritten);
      while outgoing != []
        invariant n <= |all| && outgoing == all[n..] && |w.bits| <= w.maxBits
        invariant rest == Pack(c, outgoing, w.maxBits - |w.bits|, last, wrote)
        invariant outgoing == [] ==> rest == Packing(Wrote(0), [])
        invariant whole.outcome == Shift(rest.outcome, n)
        invariant start + whole.bits == w.bits + rest.bits
        invariant wrote == (hasWritten || n > 0) && output == Receipts(all[..n])
        decreases |outgoing|
      {
        var g := outgoing[0];
        PackStep(c, outgoing, w.maxBits - |w.bits|, last, wrote);
        if !Encodable(last, g.tick) {
          return NegativeDiff, wrote, output;
        }
        if |w.bits| + Size(c, last, g) > w.maxBits {
          return if wrote then Wrote(n) else TooBig, wrote, output;
        }
        ghost var next := Pack(c, outgoing[1..], w.maxBits - |w.bits| - Size(c, last, g), g.tick, true);
        PackStep(c, outgoing[1..], w.maxBits - |w.bits| - Size(c, last, g), g.tick, true);
        Regroup3(w.bits, [true], GroupBits(c, last, g), next.bits);
        var panicked := w.WriteBit(true);
        WriteGroup(c, w, last, g);
        ReceiptsStep(all, n);
        output := output + GroupReceipts(g.tick, g.messages);
        wrote, last, outgoing, n, rest := true, g.tick, outgoing[1..], n + 1, next;
      }
      outcome := Wrote(n);
    }
  }

  lemma {:induction false} DropIsPrefix(log: Log, bound: int)
    ensures DroppedThrough(log, bound) <= log
  {
    if log != [] && bound >= log[|log| - 1].tick {
      DropIsPrefix(log[..|log| - 1], bound);
    }
  }

  // ----- what one packet holds -----

  ghost function LastTick(last: u16, groups: seq<Group>): u16 {
    if groups == [] then last else groups[|groups| - 1].tick
  }

  /** The next group of the queue after the first `count`, and where its difference is taken from. */
  ghost predicate Reaches(c: PayloadCodec, queue: seq<Group>, free: nat, last: u16, count: nat) {
    count <= |queue| && Chain(last, queue[..count]) && |QueueBits(c, last, queue[..count])| <= free
  }

  lemma {:induction false} ReachesStep(c: PayloadCodec, queue: seq<Group>, free: nat, last: u16, count: nat)
    requires queue != [] && 0 < count <= |queue|
    ensures Reaches(c, queue, free, last, count) <==>
            && Encodable(last, queue[0].tick)
            && Size(c, last, queue[0]) <= free
            && Reaches(c, queue[1..], free - Size(c, last, queue[0]), queue[0].tick, count - 1)
    ensures QueueBits(c, last, queue[..count]) ==
            [true] + (GroupBits(c, last, queue[0]) + QueueBits(c, queue[0].tick, queue[1..][..count - 1]))
    ensures LastTick(last, queue[..count]) == LastTick(queue[0].tick, queue[1..][..count - 1])
  {
    hide GroupBits, Encodable;
    assert queue[..count][1..] == queue[1..][..count - 1];
  }

  /**
   A packet takes the longest run of groups from the front of the queue that fits:
   exactly those are on the wire, in order, and nothing is lost from what remains.
   */
  lemma {:induction false} PackTakesMaximalPrefix(c: PayloadCodec, queue: seq<Group>, free: nat, last: u16, hasWritten: bool)
    ensures var p := Pack(c, queue, free, last, hasWritten);
            p.outcome.Wrote? ==>
              && var n := p.outcome.count;
              && Reaches(c, queue, free, last, n)
              && p.bits == QueueBits(c, last, queue[..n])
              && (n < |queue| ==>
                    && Encodable(LastTick(last, queue[..n]), queue[n].tick)
                    && |p.bits| + Size(c, LastTick(last, queue[..n]), queue[n]) > free)
    decreases |queue|
  {
    hide GroupBits, Encodable;
    var p := Pack(c, queue, free, last, hasWritten);
    if queue != [] && Encodable(last, queue[0].tick) && Size(c, last, queue[0]) <= free {
      PackTakesMaximalPrefix(c, queue[1..], free - Size(c, last, queue[0]), queue[0].tick, true);
      if p.outcome.Wrote? { ReachesStep(c, queue, free, last, p.outcome.count); }
    } else {
      assert queue[..0] == [];
    }
  }

  /** The other panic: exactly when nothing has been written and the first group does not fit. */
  lemma {:induction false} TooBigIff(c: PayloadCodec, queue: seq<Group>, free: nat, last: u16, hasWritten: bool)
    ensures Pack(c, queue, free, last, hasWritten).outcome == TooBig <==>
            !hasWritten && queue != [] && Encodable(last, queue[0].tick) && Size(c, last, queue[0]) > free
    decreases |queue|
  {
    hide GroupBits, Encodable;
    if queue != [] && Encodable(last, queue[0].tick) && Size(c, last, queue[0]) <= free {
      TooBigIff(c, queue[1..], free - Size(c, last, queue[0]), queue[0].tick, true);
    }
  }

  /** A receipt for each of the arrivals, in order. */
  ghost predicate ReceiptFor(receipts: seq<(u16, u8)>, arrivals: seq<Arrival>) {
    |receipts| == |arrivals| && forall k :: 0 <= k < |arrivals| ==> receipts[k] == (arrivals[k].tick, arrivals[k].index)
  }

  lemma {:induction false} GroupReceiptFor(tick: u16, messages: seq<Indexed>)
    ensures ReceiptFor(GroupReceipts(tick, messages), ArrivalsOf(tick, messages))
    decreases |messages|
  {
    if messages != [] {
      GroupReceiptFor(tick, messages[1..]);
      assert GroupReceipts(tick, messages) == [(tick, messages[0].index)] + GroupReceipts(tick, messages[1..]);
    }
  }

  lemma {:induction false} AllArrivalsSnoc(groups: seq<Group>)
    requires groups != []
    ensures var n := |groups| - 1;
            AllArrivals(groups) == AllArrivals(groups[..n]) + ArrivalsOf(groups[n].tick, groups[n].messages)
    decreases |groups|
  {
    var n := |groups| - 1;
    if n == 0 {
      assert groups[1..] == [] && groups[..0] == [];
      assert AllArrivals(groups[1..]) == [];
    } else {
      AllArrivalsSnoc(groups[1..]);
      assert groups[1..][..n - 1] == groups[..n][1..];
    }
  }

  /** What an acknowledged packet will name is exactly what its receiver reads from it, in the same order. */
  lemma {:induction false} ReceiptsAreArrivals(groups: seq<Group>)
    ensures ReceiptFor(Receipts(groups), AllArrivals(groups))
  {
    if groups != [] {
      var n := |groups| - 1;
      ReceiptsAreArrivals(groups[..n]);
      GroupReceiptFor(groups[n].tick, groups[n].messages);
      AllArrivalsSnoc(groups);
    }
  }

  /** Group `n` is the first that cannot be encoded, and the packet has room to get to it. */
  ghost predicate Stuck(c: PayloadCodec, queue: seq<Group>, free: nat, last: u16, n: nat) {
    n < |queue| && Reaches(c, queue, free, last, n) && !Encodable(LastTick(last, queue[..n]), queue[n].tick)
  }

  /** The "negative number" panic: exactly when the packet gets as far as a group newer than the one before it. */
  lemma {:induction false} NegativeDiffIff(c: PayloadCodec, queue: seq<Group>, free: nat, last: u16, hasWritten: bool)
    ensures Pack(c, queue, free, last, hasWritten).outcome == NegativeDiff <==>
            exists n :: Stuck(c, queue, free, last, n)
    decreases |queue|
  {
    hide GroupBits, Encodable, Reaches;
    if queue != [] {
      var g, free' := queue[0], free - Size(c, last, queue[0]);
      assert Stuck(c, queue, free, last, 0) <==> !Encodable(last, g.tick) by { FirstStuck(c, queue, free, last); }
      forall n: nat | Stuck(c, queue, free, last, n) && n != 0
        ensures Encodable(last, g.tick) && free' >= 0 && Stuck(c, queue[1..], free', g.tick, n - 1)
      {
        ReachesStep(c, queue, free, last, n);
      }
      if Encodable(last, g.tick) && free' >= 0 {
        NegativeDiffIff(c, queue[1..], free', g.tick, true);
        forall n: nat | Stuck(c, queue[1..], free', g.tick, n)
          ensures Stuck(c, queue, free, last, n + 1)
        {
          ReachesStep(c, queue, free, last, n + 1);
        }
      }
    }
  }

  lemma FirstStuck(c: PayloadCodec, queue: seq<Group>, free: nat, last: u16)
    requires queue != []
    ensures Stuck(c, queue, free, last, 0) <==> !Encodable(last, queue[0].tick)
  {
    assert queue[..0] == [];
  }

  // ----- what one collect puts in the queue -----

  /** Dropping everything at or before a tick keeps exactly the later ticks. */
  lemma {:induction false} DropKeepsLater(log: Log, bound: int)
    requires Ordered(log)
    ensures var kept := DroppedThrough(log, bound);
            && kept <= log
            && (forall i :: 0 <= i < |log| ==> (i < |kept| <==> log[i].tick > bound))
  {
    if log != [] && bound >= log[|log| - 1].tick {
      DropKeepsLater(log[..|log| - 1], bound);
    }
  }

  /** The list for one tick names unacknowledged slots only, each once and in ascending order ... */
  lemma {:induction false} UnacknowledgedSound(list: seq<Option<Message>>, from: nat, k: nat)
    requires from <= |list| <= 0x100 && k < |Unacknowledged(list, from)|
    ensures var u := Unacknowledged(list, from);
            && from <= u[k].index < |list| && list[u[k].index] == Some(u[k].message)
            && (k > 0 ==> u[k - 1].index < u[k].index)
    decreases |list| - from
  {
    if list[from].None? {
      UnacknowledgedSound(list, from + 1, k);
    } else if k > 0 {
      UnacknowledgedSound(list, from + 1, k - 1);
    }
  }

  /** ... and every one of them. */
  lemma {:induction false} UnacknowledgedComplete(list: seq<Option<Message>>, from: nat, i: nat) returns (k: nat)
    requires from <= i < |list| <= 0x100 && list[i].Some?
    ensures k < |Unacknowledged(list, from)| && Unacknowledged(list, from)[k] == Indexed(i, list[i].value)
    decreases |list| - from
  {
    if i == from {
      k := 0;
    } else {
      k := UnacknowledgedComplete(list, from + 1, i);
      if list[from].Some? { k := k + 1; }
    }
  }

  lemma {:induction false} UnacknowledgedAscends(list: seq<Option<Message>>, from: nat, last: u8)
    requires from <= |list| <= 0x100 && last <= from
    ensures Ascending(last, Unacknowledged(list, from))
    decreases |list| - from
  {
    if from < |list| {
      UnacknowledgedAscends(list, from + 1, if list[from].Some? then from else last);
      if list[from].Some? { assert Unacknowledged(list, from)[1..] == Unacknowledged(list, from + 1); }
    }
  }

  /** One collect from an empty queue never makes the packet panic: its ticks only go down from the sending tick. */
  lemma {:induction false} FreshCollectChains(log: Log, sending: int)
    requires Ordered(log) && Near(log, sending)
    ensures Chain(Wrap(sending), Collected(log, sending))
    decreases |log|
  {
    if log != [] && log[0].tick <= sending {
      WindowDiff(log[0].tick, sending);
      FreshCollectChains(log[1..], log[0].tick);
      assert Groups(log)[1..] == Groups(log[1..]);
    }
  }

  /**
   What an earlier collect left behind is followed by the next collect from the newest
   tick down, so the queue is still encodable exactly when no buffered tick is newer
   than the oldest left-over group.
   */
  lemma {:induction false} CarryOverIff(host: u16, left: seq<Group>, oldest: int, log: Log, sending: int)
    requires Ordered(log) && Near(log, sending) && Near(log, oldest)
    requires log != [] && log[0].tick <= sending
    requires left != [] && Chain(host, left) && LastTick(host, left) == Wrap(oldest)
    ensures Chain(host, left + Collected(log, sending)) <==> log[0].tick <= oldest
  {
    ChainConcat(host, left, Groups(log));
    WindowDiff(log[0].tick, oldest);
    assert Groups(log)[1..] == Groups(log[1..]);
    FreshCollectChains(log[1..], log[0].tick);
  }

  /** With room for the whole queue, writing it panics exactly if it is not encodable throughout. */
  lemma {:induction false} RoomyPanicIff(c: PayloadCodec, queue: seq<Group>, free: nat, last: u16, hasWritten: bool)
    requires |QueueBits(c, last, queue)| <= free
    ensures Pack(c, queue, free, last, hasWritten).outcome ==
            if Chain(last, queue) then Wrote(|queue|) else NegativeDiff
    decreases |queue|
  {
    hide GroupBits, Encodable;
    if queue != [] && Encodable(last, queue[0].tick) {
      RoomyPanicIff(c, queue[1..], free - Size(c, last, queue[0]), queue[0].tick, true);
    }
  }

  lemma {:induction false} ChainConcat(last: u16, a: seq<Group>, b: seq<Group>)
    ensures Chain(last, a + b) <==> Chain(last, a) && Chain(LastTick(last, a), b)
    decreases |a|
  {
    if a == [] {
      assert a + b == b;
    } else {
      assert (a + b)[1..] == a[1..] + b;
      ChainConcat(a[0].tick, a[1..], b);
    }
  }
}

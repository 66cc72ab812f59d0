/**
 The server side of a tick-buffered channel
 (`server/src/connection/tick_buffer_receiver_channel.rs`): future messages wait
 in a deque ordered by wrapped tick and leave when the host reaches their tick.

 The meaning of the deque is a plain map from unbounded tick to index to message.
 */
module TickBufferReceiver {
  import opened Wrapping
  import opened BitCodec
  import opened TickBufferWire

  type Pending = map<int, map<u8, Message>>

  /** The unbounded tick a received residue stands for: the one nearest to the host's tick. */
  function Logical(host: int, tick: u16): (t: int)
    ensures Wrap(t) == tick && -HALF < t - host <= HALF
  {
    var ahead := Ahead(tick, Wrap(host));
    if ahead <= HALF then host + ahead else host + ahead - 0x1_0000
  }

  lemma LogicalOf(host: int, t: int)
    requires -HALF < t - host <= HALF
    ensures Logical(host, Wrap(t)) == t
  {
  }

  // ----- specification -----

  predicate Accepts(pending: Pending, host: int, capacity: u16, tick: int, index: u8) {
    host < tick < host + capacity && (tick in pending ==> index !in pending[tick])
  }

  function With(messages: map<u8, Message>, index: u8, message: Message): map<u8, Message> {
    messages[index := message]
  }

  function Inserted(pending: Pending, host: int, capacity: u16, tick: int, index: u8, message: Message): Pending {
    if !Accepts(pending, host, capacity, tick, index) then pending
    else if tick in pending then pending[tick := With(pending[tick], index, message)]
    else pending[tick := map[index := message]]
  }

  function Due(pending: Pending, host: int): map<u8, Message> {
    if host in pending then pending[host] else map[]
  }

  function After(pending: Pending, host: int): Pending {
    map t | t in pending && t > host :: pending[t]
  }

  ghost function ArriveAll(pending: Pending, host: int, capacity: u16, arrivals: seq<Arrival>): Pending
    decreases |arrivals|
  {
    if arrivals == [] then pending
    else
      var a := arrivals[0];
      ArriveAll(Inserted(pending, host, capacity, Logical(host, a.tick), a.index, a.message), host, capacity, arrivals[1..])
  }

  predicate IsPending(pending: Pending, tick: int, index: int) {
    tick in pending && index in pending[tick]
  }

  /** An insert stores exactly the message it accepts and changes no other; it accepts what is new and within reach. */
  lemma InsertedExact(pending: Pending, host: int, capacity: u16, tick: int, index: u8, message: Message, t: int, i: int)
    ensures var after := Inserted(pending, host, capacity, tick, index, message);
            var here := t == tick && i == index;
            && (IsPending(after, t, i) <==> IsPending(pending, t, i) || (here && host < tick < host + capacity))
            && (IsPending(pending, t, i) ==> after[t][i] == pending[t][i])
            && (IsPending(after, t, i) && !IsPending(pending, t, i) ==> after[t][i] == message)
            && (here ==> (Accepts(pending, host, capacity, tick, index) <==> IsPending(after, t, i) && !IsPending(pending, t, i)))
  {
  }

  /** The arrivals that are answered with true, under their unbounded ticks. */
  ghost function AcceptedFrom(pending: Pending, host: int, capacity: u16, arrivals: seq<Arrival>): map<(int, int), Message>
    decreases |arrivals|
  {
    if arrivals == [] then map[]
    else
      var a := arrivals[0];
      var tick := Logical(host, a.tick);
      var rest := AcceptedFrom(Inserted(pending, host, capacity, tick, a.index, a.message), host, capacity, arrivals[1..]);
      if Accepts(pending, host, capacity, tick, a.index) then rest[(tick, a.index as int) := a.message] else rest
  }

  // ----- which ticks are accepted -----

  /** The two wrapped comparisons of `insert`. */
  predicate LetsIn(host: u16, capacity: u16, tick: u16) {
    SequenceGreaterThan(tick, host) && SequenceGreaterThan(WrappingAdd(host, capacity), tick)
  }

  /** They accept exactly the ticks strictly between host and host + capacity. */
  lemma AcceptanceWindow(host: int, capacity: u16, tick: u16)
    requires capacity <= HALF
    ensures LetsIn(Wrap(host), capacity, tick) <==> host < Logical(host, tick) < host + capacity
  {
  }

  ghost predicate WindowExact(capacity: u16) {
    forall host: int, tick: u16 :: LetsIn(Wrap(host), capacity, tick) <==> host < Logical(host, tick) < host + capacity
  }

  /** And they do so if and only if the capacity is at most half the range; a larger one refuses some next tick. */
  lemma AcceptanceExactIff(capacity: u16)
    ensures WindowExact(capacity) <==> capacity <= HALF
  {
    if capacity <= HALF {
      forall host: int, tick: u16 ensures LetsIn(Wrap(host), capacity, tick) <==> host < Logical(host, tick) < host + capacity {
        AcceptanceWindow(host, capacity, tick);
      }
    } else {
      NextTickRefused(39999, capacity);
    }
  }

  /** With an oversized capacity the next tick is refused: always above 32769, at 32769 for the upper half of the ticks. */
  lemma NextTickRefused(host: int, capacity: u16)
    requires capacity > HALF
    ensures host < Logical(host, Wrap(host + 1)) < host + capacity
    ensures LetsIn(Wrap(host), capacity, Wrap(host + 1)) <==> capacity == HALF + 1 && Wrap(host + 1) < HALF
  {
    LogicalOf(host, host + 1);
  }

  // ----- the buffer -----

  datatype Slot = Slot(tick: u16, messages: map<u8, Message>)

  class IncomingMessages {
    // the earliest tick first
    var buffer: seq<Slot>
    ghost var ticks: seq<int>
    ghost var pending: Pending

    ghost predicate Valid()
      reads this
    {
      && Represents(buffer, ticks, pending)
      && Rising(ticks)
    }

    constructor ()
      ensures Valid() && pending == map[]
    {
      buffer, ticks, pending := [], [], map[];
    }

    /** All buffered ticks can be compared with everything the host may still accept. */
    ghost predicate Comparable(host: int, capacity: u16)
      reads this
    {
      forall t :: t in ticks ==> host + capacity - HALF <= t < host + HALF
    }

    method Insert(hostTick: u16, messageTick: u16, index: u8, message: Message, capacity: u16, ghost host: int)
      returns (accepted: bool)
      requires Valid() && hostTick == Wrap(host) && capacity <= HALF && Comparable(host, capacity)
      modifies this
      ensures Valid() && Comparable(host, capacity)
      ensures accepted == Accepts(old(pending), host, capacity, Logical(host, messageTick), index)
      ensures pending == Inserted(old(pending), host, capacity, Logical(host, messageTick), index, message)
    {
      ghost var tick := Logical(host, messageTick);
      AcceptanceWindow(host, capacity, messageTick);
      if !SequenceGreaterThan(messageTick, hostTick) {
        return false;
      }
      if !SequenceGreaterThan(WrappingAdd(hostTick, capacity), messageTick) {
        return false;
      }
      var i := |buffer|;
      if i == 0 {
        InsertAt(0, messageTick, index, message, tick);
        return true;
      }
      while true
        invariant 0 < i <= |buffer|
        invariant buffer == old(buffer) && ticks == old(ticks) && pending == old(pending)
        invariant forall k :: i <= k < |ticks| ==> ticks[k] > tick
        decreases i
      {
        i := i - 1;
        WindowOrder(tick, ticks[i]);
        if buffer[i].tick == messageTick {
          if index !in buffer[i].messages {
            AddTo(i, index, message);
            return true;
          }
          return false;
        } else if SequenceGreaterThan(messageTick, buffer[i].tick) {
          InsertAt(i + 1, messageTick, index, message, tick);
          return true;
        }
        if i == 0 {
          InsertAt(0, messageTick, index, message, tick);
          return true;
        }
      }
    }

    method InsertAt(at: nat, messageTick: u16, index: u8, message: Message, ghost tick: int)
      requires Valid() && messageTick == Wrap(tick) && Fits(ticks, at, tick)
      modifies this
      ensures Valid()
      ensures tick !in old(pending) && pending == old(pending)[tick := map[index := message]]
      ensures forall t :: t in ticks <==> t == tick || t in old(ticks)
    {
      InsertRises(ticks, at, tick);
      InsertRepresents(buffer, ticks, pending, at, tick, map[index := message]);
      buffer := buffer[..at] + [Slot(messageTick, map[index := message])] + buffer[at..];
      ticks := ticks[..at] + [tick] + ticks[at..];
      pending := pending[tick := map[index := message]];
    }

    method AddTo(at: nat, index: u8, message: Message)
      requires Valid() && at < |ticks|
      modifies this`buffer, this`pending
      ensures Valid() && ticks == old(ticks)
      ensures ticks[at] in old(pending) && old(buffer)[at].messages == old(pending)[ticks[at]]
      ensures pending == old(pending)[ticks[at] := With(old(pending)[ticks[at]], index, message)]
    {
      var slot := buffer[at];
      buffer := buffer[at := Slot(slot.tick, With(slot.messages, index, message))];
      pending := pending[ticks[at] := With(slot.messages, index, message)];
    }

    method PruneOutdated(hostTick: u16, ghost host: int)
      requires Valid() && hostTick == Wrap(host)
      requires forall t :: t in ticks ==> -HALF < t - host < HALF
      modifies this
      ensures Valid()
      ensures pending == After(old(pending), host - 1)
      ensures forall t :: t in ticks ==> t in old(ticks) && t >= host
    {
      while buffer != []
        invariant Valid()
        invariant After(pending, host - 1) == After(old(pending), host - 1)
        invariant forall t :: t in ticks ==> t in old(ticks)
        decreases |buffer|
      {
        WindowOrder(host, ticks[0]);
        if !SequenceGreaterThan(hostTick, buffer[0].tick) {
          break;
        }
        var _ := PopFront();
      }
    }

    method PopFront() returns (slot: Slot)
      requires Valid() && buffer != []
      modifies this
      ensures Valid() && slot == old(buffer)[0] && ticks == old(ticks)[1..]
      ensures old(ticks)[0] in old(pending) && slot.messages == old(pending)[old(ticks)[0]]
      ensures pending == After(old(pending), old(ticks)[0])
    {
      slot := buffer[0];
      TailRepresents(buffer, ticks, pending);
      pending := After(pending, ticks[0]);
      buffer := buffer[1..];
      ticks := ticks[1..];
    }

    /** `drain` empties the index map in no particular order: `order` is the one it took. */
    method Collect(hostTick: u16, ghost host: int) returns (output: seq<Message>, ghost order: seq<u8>)
      requires Valid() && hostTick == Wrap(host)
      requires forall t :: t in ticks ==> -HALF < t - host < HALF
      modifies this
      ensures Valid()
      ensures pending == After(old(pending), host)
      ensures Enumerates(Due(old(pending), host), order, output)
    {
      PruneOutdated(hostTick, host);
      output, order := [], [];
      assert host in old(pending) ==> host in ticks;
      if buffer != [] {
        WindowOrder(ticks[0], host);
        if buffer[0].tick == hostTick {
          var slot := PopFront();
          output, order := Drain(slot.messages);
        }
      }
    }
  }

  method Drain(messages: map<u8, Message>) returns (output: seq<Message>, ghost order: seq<u8>)
    ensures Enumerates(messages, order, output)
    ensures forall m :: m in messages.Values <==> m in output
  {
    var left := messages.Keys;
    output, order := [], [];
    while left != {}
      invariant left <= messages.Keys
      invariant |order| == |output|
      invariant forall i :: 0 <= i < |order| ==> order[i] in messages && output[i] == messages[order[i]]
      invariant forall i, j :: 0 <= i < j < |order| ==> order[i] != order[j]
      invariant forall k :: k in messages ==> (k in left <==> k !in order)
      decreases |left|
    {
      var k :| k in left;
      left := left - {k};
      output, order := output + [messages[k]], order + [k];
    }
  }

  /** `output` lists every message of the map exactly once. */
  ghost predicate Enumerates(messages: map<u8, Message>, order: seq<u8>, output: seq<Message>) {
    && |order| == |output|
    && (forall i :: 0 <= i < |order| ==> order[i] in messages && output[i] == messages[order[i]])
    && (forall i, j :: 0 <= i < j < |order| ==> order[i] != order[j])
    && (forall k :: k in messages ==> k in order)
  }

  // ----- representation -----

  ghost predicate Rising(ticks: seq<int>) {
    forall i, j :: 0 <= i < j < |ticks| ==> 0 < ticks[j] - ticks[i] < HALF
  }

  ghost predicate Represents(buffer: seq<Slot>, ticks: seq<int>, pending: Pending) {
    && |buffer| == |ticks|
    && (forall i :: 0 <= i < |ticks| ==>
          && buffer[i].tick == Wrap(ticks[i])
          && ticks[i] in pending && buffer[i].messages == pending[ticks[i]])
    && (forall t :: t in pending ==> t in ticks)
  }

  ghost predicate Fits(ticks: seq<int>, at: nat, tick: int) {
    && at <= |ticks|
    && (forall k :: 0 <= k < at ==> 0 < tick - ticks[k] < HALF)
    && (forall k :: at <= k < |ticks| ==> 0 < ticks[k] - tick < HALF)
  }

  lemma InsertRises(ticks: seq<int>, at: nat, tick: int)
    requires Rising(ticks) && Fits(ticks, at, tick)
    ensures Rising(ticks[..at] + [tick] + ticks[at..])
    ensures tick !in ticks
  {
  }

  lemma InsertedAmong(ticks: seq<int>, at: nat, tick: int, t: int)
    requires at <= |ticks|
    ensures t in ticks[..at] + [tick] + ticks[at..] <==> t == tick || t in ticks
  {
    assert ticks == ticks[..at] + ticks[at..];
  }

  lemma InsertRepresents(buffer: seq<Slot>, ticks: seq<int>, pending: Pending, at: nat, tick: int, messages: map<u8, Message>)
    requires Represents(buffer, ticks, pending) && at <= |ticks| && tick !in ticks
    ensures var ticks' := ticks[..at] + [tick] + ticks[at..];
            && Represents(buffer[..at] + [Slot(Wrap(tick), messages)] + buffer[at..], ticks', pending[tick := messages])
            && forall t :: t in ticks' <==> t == tick || t in ticks
  {
    hide Wrap;
    var ticks' := ticks[..at] + [tick] + ticks[at..];
    var buffer' := buffer[..at] + [Slot(Wrap(tick), messages)] + buffer[at..];
    forall t ensures t in ticks' <==> t == tick || t in ticks {
      InsertedAmong(ticks, at, tick, t);
    }
    forall i | 0 <= i < |ticks'|
      ensures i == at ==> ticks'[i] == tick && buffer'[i] == Slot(Wrap(tick), messages)
      ensures i != at ==>
                var k := if i < at then i else i - 1;
                ticks'[i] == ticks[k] && buffer'[i] == buffer[k] && ticks[k] in ticks
    {
    }
  }

  lemma TailRepresents(buffer: seq<Slot>, ticks: seq<int>, pending: Pending)
    requires Represents(buffer, ticks, pending) && Rising(ticks) && buffer != []
    ensures Represents(buffer[1..], ticks[1..], After(pending, ticks[0])) && Rising(ticks[1..])
  {
  }

  /** Distinct ascending ticks inside an open interval: no more of them than it has room for. */
  lemma {:induction false} RisingSpread(ticks: seq<int>, i: nat)
    requires Rising(ticks) && i < |ticks|
    ensures ticks[i] >= ticks[0] + i
  {
    if i != 0 { RisingSpread(ticks, i - 1); }
  }

  /** A buffer holding only ticks after the host and within capacity has at most capacity - 1 slots. */
  lemma BufferBound(buffer: seq<Slot>, ticks: seq<int>, pending: Pending, host: int, capacity: u16)
    requires Represents(buffer, ticks, pending) && Rising(ticks)
    requires forall t :: t in pending ==> host < t < host + capacity
    ensures |buffer| <= (if capacity == 0 then 0 else capacity - 1)
  {
    if |ticks| > 0 {
      RisingSpread(ticks, |ticks| - 1);
      assert ticks[0] in pending && ticks[|ticks| - 1] in pending;
    }
  }

  // ----- the channel -----

  lemma {:induction false} ArriveConcat(pending: Pending, host: int, capacity: u16, a: seq<Arrival>, b: seq<Arrival>)
    ensures ArriveAll(pending, host, capacity, a + b) ==
            ArriveAll(ArriveAll(pending, host, capacity, a), host, capacity, b)
    decreases |a|
  {
    if a == [] {
      assert a + b == b;
    } else {
      assert (a + b)[1..] == a[1..] + b;
      var pending' := Inserted(pending, host, capacity, Logical(host, a[0].tick), a[0].index, a[0].message);
      ArriveConcat(pending', host, capacity, a[1..], b);
    }
  }

  lemma ArriveNone(pending: Pending, host: int, capacity: u16)
    ensures ArriveAll(pending, host, capacity, []) == pending
  {
  }

  lemma ArriveOne(pending: Pending, host: int, capacity: u16, a: Arrival)
    ensures ArriveAll(pending, host, capacity, [a]) ==
            Inserted(pending, host, capacity, Logical(host, a.tick), a.index, a.message)
  {
    assert [a][1..] == [];
  }

  class TickBufferReceiverChannel {
    const incoming: IncomingMessages
    const capacity: u16

    ghost predicate Ready(host: int)
      reads incoming
    {
      incoming.Valid() && capacity <= HALF && incoming.Comparable(host, capacity)
    }

    constructor (capacity: u16)
      ensures fresh(incoming) && incoming.Valid() && incoming.pending == map[] && this.capacity == capacity
    {
      incoming := new IncomingMessages();
      this.capacity := capacity;
    }

    /** The inner loop of `read_message`: `count` messages of one tick, inserted as they are read. */
    method ReadList(c: PayloadCodec, reader: BitReader, hostTick: u16, tick: u16, count: nat, ghost host: int)
      returns (ok: bool, ghost items: seq<Arrival>)
      requires c.Consuming() && Ready(host) && hostTick == Wrap(host)
      modifies incoming, reader
      ensures Ready(host)
      ensures var r := TickBufferWire.ReadMessages(c, count, tick, 0, old(reader.rest));
              ok == r.Done? && items == r.items && (ok ==> reader.rest == r.rest)
      ensures incoming.pending == ArriveAll(old(incoming.pending), host, capacity, items)
    {
      hide Decode, Logical, Accepts, PayloadCodec.Consuming;
      var last: u8 := 0;
      ghost var start, whole := incoming.pending, TickBufferWire.ReadMessages(c, count, tick, 0, reader.rest);
      items := [];
      for i := 0 to count
        invariant Ready(host)
        invariant whole == Prepend(items, TickBufferWire.ReadMessages(c, count - i, tick, last, reader.rest))
        invariant incoming.pending == ArriveAll(start, host, capacity, items)
      {
        var diff := reader.ReadVariable(2);
        if diff.Err? { return false, items; }
        var index: u8 := (last + diff.value) % 0x100;
        last := index;
        var message := reader.ReadWith(c.read);
        if message.Err? { return false, items; }
        ghost var here := Arrival(tick, index, message.value);
        var _ := incoming.Insert(hostTick, tick, index, message.value, capacity, host);
        ArriveConcat(start, host, capacity, items, [here]);
        ArriveOne(ArriveAll(start, host, capacity, items), host, capacity, here);
        PrependTwice(items, [here], TickBufferWire.ReadMessages(c, count - i - 1, tick, index, reader.rest));
        items := items + [here];
      }
      ok := true;
    }

    method ReadMessages(c: PayloadCodec, reader: BitReader, hostTick: u16, remoteTick: u16, ghost host: int)
      returns (ok: bool)
      requires c.Consuming() && Ready(host) && hostTick == Wrap(host)
      modifies incoming, reader
      ensures Ready(host)
      ensures var r := ReadGroups(c, remoteTick, old(reader.rest));
              && ok == r.Done?
              && (ok ==> reader.rest == r.rest)
              && incoming.pending == ArriveAll(old(incoming.pending), host, capacity, r.items)
    {
      hide Decode, TickBufferWire.ReadMessages, ArriveAll;
      var last := remoteTick;
      ghost var start, whole := incoming.pending, ReadGroups(c, remoteTick, reader.rest);
      ghost var done: seq<Arrival> := [];
      ArriveNone(start, host, capacity);
      while true
        invariant Ready(host)
        invariant whole == Prepend(done, ReadGroups(c, last, reader.rest))
        invariant incoming.pending == ArriveAll(start, host, capacity, done)
        decreases |reader.rest|
      {
        assert done + [] == done;
        var more := reader.ReadBit();
        if more.Err? { return false; }
        if !more.value { return true; }
        var diff := reader.ReadVariable(3);
        if diff.Err? { return false; }
        last := WrappingSub(last, diff.value);
        var count := reader.ReadVariable(3);
        if count.Err? { return false; }
        var good, items := ReadList(c, reader, hostTick, last, count.value, host);
        ArriveConcat(start, host, capacity, done, items);
        if !good { return false; }
        PrependTwice(done, items, ReadGroups(c, last, reader.rest));
        done := done + items;
      }
    }
  }

  lemma PrependTwice(a: seq<Arrival>, b: seq<Arrival>, r: Read)
    ensures Prepend(a, Prepend(b, r)) == Prepend(a + b, r)
  {
    assert a + (b + r.items) == (a + b) + r.items;
  }
}

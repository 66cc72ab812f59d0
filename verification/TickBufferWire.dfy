/**
 The wire format of tick-buffered messages: the client's `write_message(s)`
 (`client/src/connection/channel_tick_buffer_sender.rs`) against the server's
 `read_message(s)` (`server/src/connection/tick_buffer_receiver_channel.rs`).

 Messages travel in groups, one per tick. Ticks are delta-encoded backwards from
 the packet's tick, message indices forwards from zero.
 */
module TickBufferWire {
  import opened Wrapping
  import opened BitCodec

  type u8 = x: int | 0 <= x < 0x100

  /** Stands for a `MessageContainer`; only which message it is matters here. */
  datatype Message = Message(content: int)

  datatype Indexed = Indexed(index: u8, message: Message)

  datatype Group = Group(tick: u16, messages: seq<Indexed>)

  /** A message as the server sees it once decoded. */
  datatype Arrival = Arrival(tick: u16, index: u8, message: Message)

  /** The payload's own serialisation (`MessageContainer::write`, `MessageKinds::read`). */
  datatype PayloadCodec = PayloadCodec(write: Message -> Bits, read: Bits -> Decoded<Message>) {

    /** Reading never produces bits. */
    ghost predicate Consuming() {
      forall s :: read(s).Ok? ==> |read(s).rest| <= |s|
    }

    /** Reading undoes writing, whatever follows. */
    ghost predicate Faithful() {
      forall m, rest :: read(write(m) + rest) == Ok(m, rest)
    }
  }

  // ----- writing -----

  /** Message indices of one tick never go down, so the `u8` difference never underflows. */
  ghost predicate Ascending(last: u8, messages: seq<Indexed>)
    decreases |messages|
  {
    messages != [] ==> last <= messages[0].index && Ascending(messages[0].index, messages[1..])
  }

  /** The backwards tick difference is written as an unsigned number: encoding a negative one panics. */
  predicate Encodable(last: u16, tick: u16) {
    WrappingDiff(tick, last) >= 0
  }

  ghost predicate Chain(last: u16, groups: seq<Group>)
    decreases |groups|
  {
    groups != [] ==> Encodable(last, groups[0].tick) && Chain(groups[0].tick, groups[1..])
  }

  function MessageBits(c: PayloadCodec, last: u8, messages: seq<Indexed>): Bits
    decreases |messages|
  {
    if messages == [] then []
    else
      Encode((messages[0].index - last) % 0x100, 2)
      + (c.write(messages[0].message) + MessageBits(c, messages[0].index, messages[1..]))
  }

  /** Where `Encodable`, the number written for the tick is `WrappingDiff(g.tick, last)`. */
  function GroupBits(c: PayloadCodec, last: u16, g: Group): Bits {
    Encode(Ahead(last, g.tick), 3) + (Encode(|g.messages|, 3) + MessageBits(c, 0, g.messages))
  }

  /** Each group is announced by a continue bit; the caller closes the list with a clear one. */
  function QueueBits(c: PayloadCodec, last: u16, groups: seq<Group>): Bits
    decreases |groups|
  {
    if groups == [] then []
    else [true] + (GroupBits(c, last, groups[0]) + QueueBits(c, groups[0].tick, groups[1..]))
  }

  /** `write_message`: the whole group is known to fit. */
  method WriteGroup(c: PayloadCodec, w: BitWriter, last: u16, g: Group)
    requires Encodable(last, g.tick)
    requires w.Fits(GroupBits(c, last, g))
    modifies w`bits
    ensures w.bits == old(w.bits) + GroupBits(c, last, g)
  {
    Regroup3(w.bits, Encode(Ahead(last, g.tick), 3), Encode(|g.messages|, 3), MessageBits(c, 0, g.messages));
    var panicked := w.WriteVariable(WrappingDiff(g.tick, last), 3);
    panicked := w.WriteVariable(|g.messages|, 3);
    WriteMessageList(c, w, g.messages);
  }

  method WriteMessageList(c: PayloadCodec, w: BitWriter, messages: seq<Indexed>)
    requires w.Fits(MessageBits(c, 0, messages))
    modifies w`bits
    ensures w.bits == old(w.bits) + MessageBits(c, 0, messages)
  {
    var lastId: u8 := 0;
    ghost var target := w.bits + MessageBits(c, 0, messages);
    assert messages[0..] == messages;
    for i := 0 to |messages|
      invariant w.bits + MessageBits(c, lastId, messages[i..]) == target
    {
      var m := messages[i];
      ghost var tail := messages[i + 1..];
      assert messages[i..][1..] == tail;
      Regroup3(w.bits, Encode((m.index - lastId) % 0x100, 2), c.write(m.message), MessageBits(c, m.index, tail));
      var panicked := w.WriteVariable((m.index - lastId) % 0x100, 2);
      panicked := w.WriteBits(c.write(m.message));
      lastId := m.index;
    }
  }

  lemma Regroup3(w: Bits, a: Bits, b: Bits, d: Bits)
    ensures w + a + b + d == w + (a + (b + d))
  {
  }

  // ----- reading -----

  /** `Broken` is a `SerdeErr`: what was read before it has already been handed on. */
  datatype Read = Done(items: seq<Arrival>, rest: Bits) | Broken(items: seq<Arrival>)

  function Prepend(before: seq<Arrival>, r: Read): Read {
    match r
    case Done(items, rest) => Done(before + items, rest)
    case Broken(items) => Broken(before + items)
  }

  ghost function ReadMessages(c: PayloadCodec, count: nat, tick: u16, last: u8, s: Bits): (r: Read)
    requires c.Consuming()
    ensures r.Done? ==> |r.rest| <= |s|
  {
    if count == 0 then Done([], s)
    else
      match Decode(s, 2)
      case Err => Broken([])
      case Ok(diff, s1) =>
        var index: u8 := (last + diff) % 0x100;
        match c.read(s1)
        case Err => Broken([])
        case Ok(message, s2) =>
          Prepend([Arrival(tick, index, message)], ReadMessages(c, count - 1, tick, index, s2))
  }

  ghost function ReadGroups(c: PayloadCodec, last: u16, s: Bits): Read
    requires c.Consuming()
    decreases |s|
  {
    if s == [] then Broken([])
    else if !s[0] then Done([], s[1..])
    else
      match Decode(s[1..], 3)
      case Err => Broken([])
      case Ok(diff, s1) =>
        var tick := WrappingSub(last, diff);
        match Decode(s1, 3)
        case Err => Broken([])
        case Ok(count, s2) =>
          match ReadMessages(c, count, tick, 0, s2)
          case Broken(items) => Broken(items)
          case Done(items, s3) => Prepend(items, ReadGroups(c, tick, s3))
  }

  // ----- decoding undoes encoding -----

  function ArrivalsOf(tick: u16, messages: seq<Indexed>): seq<Arrival> {
    if messages == [] then []
    else [Arrival(tick, messages[0].index, messages[0].message)] + ArrivalsOf(tick, messages[1..])
  }

  function AllArrivals(groups: seq<Group>): seq<Arrival> {
    if groups == [] then [] else ArrivalsOf(groups[0].tick, groups[0].messages) + AllArrivals(groups[1..])
  }

  lemma {:induction false} ReadBackMessage(c: PayloadCodec, count: nat, tick: u16, last: u8, m: Indexed, after: Bits)
    requires c.Consuming() && c.Faithful()
    ensures ReadMessages(c, count + 1, tick, last, Encode((m.index - last) % 0x100, 2) + (c.write(m.message) + after)) ==
            Prepend([Arrival(tick, m.index, m.message)], ReadMessages(c, count, tick, m.index, after))
  {
    var diff, body := (m.index - last) % 0x100, c.write(m.message) + after;
    DecodeEncode(diff, 2, body);
    assert (last + diff) % 0x100 == m.index;
    assert c.read(body) == Ok(m.message, after);
  }

  lemma {:induction false} ReadBackMessages(c: PayloadCodec, tick: u16, last: u8, messages: seq<Indexed>, rest: Bits)
    requires c.Consuming() && c.Faithful()
    ensures ReadMessages(c, |messages|, tick, last, MessageBits(c, last, messages) + rest) ==
            Done(ArrivalsOf(tick, messages), rest)
    decreases |messages|
  {
    hide Encode, Decode;
    if messages == [] {
      assert MessageBits(c, last, messages) + rest == rest;
    } else {
      var m, tail := messages[0], messages[1..];
      ReadBackMessages(c, tick, m.index, tail, rest);
      ReadBackMessage(c, |tail|, tick, last, m, MessageBits(c, m.index, tail) + rest);
      Regroup(Encode((m.index - last) % 0x100, 2), c.write(m.message), MessageBits(c, m.index, tail), rest);
    }
  }

  lemma Regroup(a: Bits, b: Bits, d: Bits, rest: Bits)
    ensures (a + (b + d)) + rest == a + (b + (d + rest))
  {
  }

  lemma {:induction false} ReadBackGroup(c: PayloadCodec, last: u16, g: Group, after: Bits)
    requires c.Consuming() && c.Faithful()
    ensures ReadGroups(c, last, [true] + (GroupBits(c, last, g) + after)) ==
            Prepend(ArrivalsOf(g.tick, g.messages), ReadGroups(c, g.tick, after))
  {
    var s2 := MessageBits(c, 0, g.messages) + after;
    var s1 := Encode(|g.messages|, 3) + s2;
    var s := [true] + (GroupBits(c, last, g) + after);
    Regroup(Encode(Ahead(last, g.tick), 3), Encode(|g.messages|, 3), MessageBits(c, 0, g.messages), after);
    assert s[1..] == Encode(Ahead(last, g.tick), 3) + s1;
    DecodeEncode(Ahead(last, g.tick), 3, s1);
    assert WrappingSub(last, Ahead(last, g.tick)) == g.tick;
    DecodeEncode(|g.messages|, 3, s2);
    ReadBackMessages(c, g.tick, 0, g.messages, after);
  }

  /** Reading what was written yields exactly the written groups, message by message, and nothing else. */
  lemma {:induction false} ReadBack(c: PayloadCodec, last: u16, groups: seq<Group>, rest: Bits)
    requires c.Consuming() && c.Faithful()
    ensures ReadGroups(c, last, QueueBits(c, last, groups) + ([false] + rest)) == Done(AllArrivals(groups), rest)
    decreases |groups|
  {
    if groups == [] {
      assert QueueBits(c, last, groups) + ([false] + rest) == [false] + rest;
    } else {
      var g, tail := groups[0], groups[1..];
      ReadBack(c, g.tick, tail, rest);
      ReadBackGroup(c, last, g, QueueBits(c, g.tick, tail) + ([false] + rest));
      Regroup([true], GroupBits(c, last, g), QueueBits(c, g.tick, tail), [false] + rest);
    }
  }
}

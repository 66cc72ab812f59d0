/**
 The receiving end of an ordered reliable channel: the sliding record that drops copies,
 `shared/src/messages/channels/receivers/reliable_receiver.rs`, and the arranger that restores
 the order, `ordered_reliable_receiver.rs` beside it, for messages of one fragment.
 */
module ReliableReceivers {
  import opened Options
  import opened Wrapping
  import opened ReliableSenders

  // ----- the record of received indices -----

  /** All indices before `base` have been received; of the later ones those whose flag is set. */
  datatype Record = Record(base: int, flags: seq<bool>)

  predicate Has(r: Record, j: int) {
    j < r.base || (j - r.base < |r.flags| && r.flags[j - r.base])
  }

  /** `base` is the first index not received. */
  predicate Cleared(r: Record) {
    r.flags == [] || !r.flags[0]
  }

  function Slid(r: Record): Record
    decreases |r.flags|
  {
    if Cleared(r) then r else Slid(Record(r.base + 1, r.flags[1..]))
  }

  function Grown(flags: seq<bool>, k: nat): (g: seq<bool>)
    ensures |g| == if k < |flags| then |flags| else k + 1
    ensures forall i :: 0 <= i < |g| ==> g[i] == (i < |flags| && flags[i])
  {
    if k < |flags| then flags else flags + seq(k + 1 - |flags|, _ => false)
  }

  function Marked(r: Record, j: int): Record {
    if Has(r, j) then r else Slid(Record(r.base, Grown(r.flags, j - r.base)[j - r.base := true]))
  }

  /** Sliding moves the base to the first index missing and forgets nothing. */
  lemma {:induction false} SlidKeeps(r: Record, i: int)
    ensures Has(Slid(r), i) <==> Has(r, i)
    ensures Cleared(Slid(r)) && r.base <= Slid(r).base
    decreases |r.flags|
  {
    if !Cleared(r) { SlidKeeps(Record(r.base + 1, r.flags[1..]), i); }
  }

  lemma GrownHas(r: Record, k: nat, i: int)
    ensures Has(Record(r.base, Grown(r.flags, k)[k := true]), i) <==> Has(r, i) || i == r.base + k
  {
    hide Grown;
    var g := Grown(r.flags, k)[k := true];
    if 0 <= i - r.base < |g| { assert g[i - r.base] == (i - r.base == k || Grown(r.flags, k)[i - r.base]); }
  }

  /** Marking adds that index and no other, and the base is again the first index missing. */
  lemma MarkedExact(r: Record, j: int, i: int)
    requires Cleared(r)
    ensures Has(Marked(r, j), i) <==> Has(r, i) || i == j
    ensures Cleared(Marked(r, j)) && r.base <= Marked(r, j).base
    ensures !Has(r, r.base)
  {
    hide Grown, Slid;
    if !Has(r, j) {
      GrownHas(r, j - r.base, i);
      SlidKeeps(Record(r.base, Grown(r.flags, j - r.base)[j - r.base := true]), i);
    }
  }

  /** The index is before the window, or seems so. */
  predicate SeemsOld(r: Record, index: u16) {
    SequenceLessThan(index, Wrap(r.base))
  }

  /** An index is let through when it does not seem old and the first slot with its residue is empty. */
  predicate LetsThrough(r: Record, index: u16) {
    !SeemsOld(r, index) && !Has(r, FirstFrom(r.base, index))
  }

  function Buffered(r: Record, index: u16): Record {
    if LetsThrough(r, index) then Marked(r, FirstFrom(r.base, index)) else r
  }

  datatype Flag = Flag(index: u16, received: bool)

  ghost predicate ShowsRecord(oldest: u16, record: seq<Flag>, r: Record) {
    && oldest == Wrap(r.base) && |record| == |r.flags|
    && forall i :: 0 <= i < |record| ==> record[i] == Flag(Wrap(r.base + i), r.flags[i])
  }

  class ReliableReceiver {
    var oldestReceivedMessageIndex: u16
    var record: seq<Flag>
    var incomingMessages: seq<Staged>
    ghost var state: Record

    ghost predicate Valid()
      reads this
    {
      ShowsRecord(oldestReceivedMessageIndex, record, state) && Cleared(state)
    }

    constructor ()
      ensures Valid() && state == Record(0, []) && incomingMessages == []
    {
      oldestReceivedMessageIndex, record, incomingMessages, state := 0, [], [], Record(0, []);
    }

    /** Finds the first slot with that index, adding empty slots as far as needed. */
    method Locate(index: u16) returns (at: nat)
      requires Valid()
      modifies this`record, this`state
      ensures state.base + at == FirstFrom(state.base, index) && at < |record|
      ensures state == old(state).(flags := Grown(old(state).flags, at))
      ensures ShowsRecord(oldestReceivedMessageIndex, record, state)
    {
      hide Wrap, ShowsRecord, Grown, FirstFrom;
      ghost var j := FirstFrom(state.base, index);
      at := 0;
      while true
        invariant 0 <= at <= j - state.base && at <= |record|
        invariant ShowsRecord(oldestReceivedMessageIndex, record, state)
        invariant state == old(state).(flags := GrownTo(old(state).flags, at))
        decreases j - state.base - at
      {
        RecordLength(oldestReceivedMessageIndex, record, state);
        IndexIs(state.base, at, j);
        GrownStep(old(state).flags, at);
        if at < |record| {
          FlagAt(oldestReceivedMessageIndex, record, state, at);
          if record[at].index == index {
            break;
          }
        } else {
          var next := WrappingAdd(oldestReceivedMessageIndex, at);
          AppendFlag(oldestReceivedMessageIndex, record, state);
          record := record + [Flag(next, false)];
          state := state.(flags := state.flags + [false]);
          if next == index {
            break;
          }
        }
        at := at + 1;
      }
    }

    /** A message is let through at most once for each slot of the window. */
    method BufferMessage(index: u16, m: Payload)
      requires Valid()
      modifies this
      ensures Valid() && state == Buffered(old(state), index)
      ensures incomingMessages ==
                if LetsThrough(old(state), index) then old(incomingMessages) + [Staged(index, m)] else old(incomingMessages)
    {
      hide Wrap, SequenceLessThan, Slid, ShowsRecord, Grown, FirstFrom;
      RecordLength(oldestReceivedMessageIndex, record, state);
      if SequenceLessThan(index, oldestReceivedMessageIndex) {
        return;
      }
      var at := Locate(index);
      FlagAt(oldestReceivedMessageIndex, record, state, at);
      GrownAlready(old(state).flags, at);
      if record[at].received {
        return;
      }
      MarkFlag(oldestReceivedMessageIndex, record, state, at);
      record := record[at := Flag(index, true)];
      state := state.(flags := state.flags[at := true]);
      incomingMessages := incomingMessages + [Staged(index, m)];
      SlidKeeps(state, 0);
      ClearOldMessages();
    }

    method ClearOldMessages()
      requires ShowsRecord(oldestReceivedMessageIndex, record, state)
      modifies this`oldestReceivedMessageIndex, this`record, this`state
      ensures state == Slid(old(state)) && ShowsRecord(oldestReceivedMessageIndex, record, state)
    {
      hide Wrap, ShowsRecord, Slid;
      while true
        invariant ShowsRecord(oldestReceivedMessageIndex, record, state)
        invariant Slid(state) == Slid(old(state))
        decreases |record|
      {
        RecordLength(oldestReceivedMessageIndex, record, state);
        SlidStep(state);
        if record == [] {
          break;
        }
        FlagAt(oldestReceivedMessageIndex, record, state, 0);
        if !record[0].received {
          break;
        }
        TailFlag(oldestReceivedMessageIndex, record, state);
        record := record[1..];
        oldestReceivedMessageIndex := WrappingAdd(oldestReceivedMessageIndex, 1);
        state := Record(state.base + 1, state.flags[1..]);
      }
    }

    method ReceiveMessages() returns (taken: seq<Staged>)
      requires Valid()
      modifies this`incomingMessages
      ensures Valid() && taken == old(incomingMessages) && incomingMessages == []
    {
      taken := incomingMessages;
      incomingMessages := [];
    }
  }

  /** Why the sender's queue must be bounded: an index half the range or more ahead may pass for an old one and be dropped. */
  lemma DroppedAsOldIff(j: int, base: int)
    requires 0 <= j - base < 0x1_0000
    ensures SequenceLessThan(Wrap(j), Wrap(base)) <==> j - base > HALF || (j - base == HALF && Wrap(base) > Wrap(j))
  {
    GreaterByDistance(Wrap(base), Wrap(j));
  }

  lemma IndexIs(base: int, at: nat, j: int)
    requires 0 <= at <= j - base < 0x1_0000
    ensures WrappingAdd(Wrap(base), at) == Wrap(base + at)
    ensures Wrap(base + at) == Wrap(j) <==> base + at == j
  {
  }

  function GrownTo(flags: seq<bool>, n: nat): seq<bool> {
    if n <= |flags| then flags else Grown(flags, n - 1)
  }

  lemma GrownStep(flags: seq<bool>, at: nat)
    ensures at < |GrownTo(flags, at)| <==> at < |flags|
    ensures at < |flags| ==> GrownTo(flags, at + 1) == GrownTo(flags, at) == Grown(flags, at)
    ensures at >= |flags| ==> GrownTo(flags, at + 1) == Grown(flags, at) == GrownTo(flags, at) + [false]
    ensures at <= |GrownTo(flags, at)|
  {
  }

  lemma GrownAlready(flags: seq<bool>, k: nat)
    ensures k < |flags| ==> Grown(flags, k) == flags
    ensures k >= |flags| ==> !Grown(flags, k)[k]
  {
  }

  lemma SlidStep(r: Record)
    ensures Cleared(r) ==> Slid(r) == r
    ensures !Cleared(r) ==> Slid(r) == Slid(Record(r.base + 1, r.flags[1..]))
  {
  }

  lemma RecordLength(oldest: u16, record: seq<Flag>, r: Record)
    requires ShowsRecord(oldest, record, r)
    ensures |record| == |r.flags| && oldest == Wrap(r.base)
  {
  }

  lemma FlagAt(oldest: u16, record: seq<Flag>, r: Record, i: nat)
    requires ShowsRecord(oldest, record, r) && i < |record|
    ensures i < |r.flags| && record[i] == Flag(Wrap(r.base + i), r.flags[i])
  {
  }

  lemma AppendFlag(oldest: u16, record: seq<Flag>, r: Record)
    requires ShowsRecord(oldest, record, r)
    ensures ShowsRecord(oldest, record + [Flag(Wrap(r.base + |record|), false)], r.(flags := r.flags + [false]))
  {
    hide Wrap;
  }

  lemma MarkFlag(oldest: u16, record: seq<Flag>, r: Record, i: nat)
    requires ShowsRecord(oldest, record, r) && i < |record| && i < |r.flags|
    ensures ShowsRecord(oldest, record[i := Flag(Wrap(r.base + i), true)], r.(flags := r.flags[i := true]))
  {
    hide Wrap;
  }

  lemma TailFlag(oldest: u16, record: seq<Flag>, r: Record)
    requires ShowsRecord(oldest, record, r) && record != [] && r.flags != []
    ensures ShowsRecord(WrappingAdd(oldest, 1), record[1..], Record(r.base + 1, r.flags[1..]))
  {
    hide Wrap;
    NextWraps(r.base);
  }

  // ----- the arranger -----

  /** Everything before `base` has been handed over; later messages wait in their slots. */
  datatype Arranged = Arranged(base: int, slots: seq<Option<Payload>>)

  /** The message waiting for its turn under an index. */
  function At(a: Arranged, j: int): Option<Payload> {
    if 0 <= j - a.base < |a.slots| then a.slots[j - a.base] else None
  }

  function Widened(slots: seq<Option<Payload>>, k: nat): (w: seq<Option<Payload>>)
    ensures |w| == if k < |slots| then |slots| else k + 1
    ensures forall i :: 0 <= i < |w| ==> w[i] == if i < |slots| then slots[i] else None
  {
    if k < |slots| then slots else slots + seq(k + 1 - |slots|, _ => None)
  }

  /** How many slots at the front are filled. */
  function Ready(slots: seq<Option<Payload>>): (n: nat)
    ensures n <= |slots| && (n < |slots| ==> slots[n].None?)
    ensures forall i :: 0 <= i < n ==> slots[i].Some?
  {
    if slots == [] || slots[0].None? then 0 else 1 + Ready(slots[1..])
  }

  function Payloads(slots: seq<Option<Payload>>): (p: seq<Payload>)
    requires forall i :: 0 <= i < |slots| ==> slots[i].Some?
    ensures |p| == |slots| && forall i :: 0 <= i < |p| ==> p[i] == slots[i].value
  {
    seq(|slots|, i requires 0 <= i < |slots| => slots[i].value)
  }

  datatype Handed = Handed(a: Arranged, output: seq<Payload>) | SlotTakenPanic

  /** Puts the message in its slot, then hands over all that is in order. */
  function Processed(a: Arranged, j: int, m: Payload): Handed
    requires a.base <= j
  {
    var slots := Widened(a.slots, j - a.base);
    if slots[j - a.base].Some? then SlotTakenPanic
    else
      var filled := slots[j - a.base := Some(m)];
      var n := Ready(filled);
      Handed(Arranged(a.base + n, filled[n..]), Payloads(filled[..n]))
  }

  datatype Slot = Slot(index: u16, message: Option<Payload>)

  ghost predicate ShowsSlots(received: u16, buffer: seq<Slot>, a: Arranged) {
    && received == Wrap(a.base) && |buffer| == |a.slots|
    && forall i :: 0 <= i < |buffer| ==> buffer[i] == Slot(Wrap(a.base + i), a.slots[i])
  }

  class OrderedArranger {
    var buffer: seq<Slot>
    var messagesReceived: u16
    ghost var state: Arranged

    ghost predicate Valid()
      reads this
    {
      ShowsSlots(messagesReceived, buffer, state)
    }

    constructor ()
      ensures Valid() && state == Arranged(0, [])
    {
      buffer, messagesReceived, state := [], 0, Arranged(0, []);
    }

    /** Finds the first slot with that index, adding empty slots as far as needed. */
    method Locate(index: u16) returns (at: nat)
      requires Valid()
      modifies this`buffer, this`state
      ensures Valid() && state.base + at == FirstFrom(state.base, index) && at < |buffer|
      ensures state == old(state).(slots := Widened(old(state).slots, at))
    {
      hide Wrap, ShowsSlots, Widened, FirstFrom;
      ghost var j := FirstFrom(state.base, index);
      at := 0;
      while true
        invariant 0 <= at <= j - state.base && at <= |buffer| && Valid()
        invariant state == old(state).(slots := WidenedTo(old(state).slots, at))
        decreases j - state.base - at
      {
        SlotsLength(messagesReceived, buffer, state);
        IndexIs(state.base, at, j);
        WidenedStep(old(state).slots, at);
        if at < |buffer| {
          SlotAt(messagesReceived, buffer, state, at);
          if buffer[at].index == index {
            break;
          }
        } else {
          var next := WrappingAdd(messagesReceived, at);
          AppendSlot(messagesReceived, buffer, state);
          buffer := buffer + [Slot(next, None)];
          state := state.(slots := state.slots + [None]);
          if next == index {
            break;
          }
        }
        at := at + 1;
      }
    }

    /** Fills the first slot with that index, or panics exactly if it is taken, and hands over all that is in order. */
    method Process(index: u16, m: Payload) returns (panicked: bool, output: seq<Payload>)
      requires Valid()
      modifies this
      ensures var h := Processed(old(state), FirstFrom(old(state).base, index), m);
              panicked == h.SlotTakenPanic? && (!panicked ==> Valid() && Handed(state, output) == h)
    {
      hide Wrap, Ready, ShowsSlots, Widened, FirstFrom;
      var at := Locate(index);
      SlotAt(messagesReceived, buffer, state, at);
      if buffer[at].message.Some? {
        return true, [];
      }
      FillSlot(messagesReceived, buffer, state, at, m);
      buffer := buffer[at := Slot(index, Some(m))];
      state := state.(slots := state.slots[at := Some(m)]);
      output := PopReady();
      return false, output;
    }

    method PopReady() returns (output: seq<Payload>)
      requires Valid()
      modifies this
      ensures Valid()
      ensures var n := Ready(old(state).slots);
              state == Arranged(old(state).base + n, old(state).slots[n..]) && output == Payloads(old(state).slots[..n])
    {
      hide Wrap;
      output := [];
      ghost var slots, base := state.slots, state.base;
      while buffer != [] && buffer[0].message.Some?
        invariant Valid() && |output| <= |slots|
        invariant state == Arranged(base + |output|, slots[|output|..])
        invariant forall i :: 0 <= i < |output| ==> slots[i] == Some(output[i])
        decreases |buffer|
      {
        NextWraps(state.base);
        assert slots[|output|..][1..] == slots[|output| + 1..];
        output := output + [buffer[0].message.value];
        messagesReceived := WrappingAdd(messagesReceived, 1);
        buffer := buffer[1..];
        state := Arranged(state.base + 1, state.slots[1..]);
      }
      ReadyIs(slots, |output|);
    }
  }

  lemma ReadyIs(slots: seq<Option<Payload>>, n: nat)
    requires n <= |slots| && (n < |slots| ==> slots[n].None?)
    requires forall i :: 0 <= i < n ==> slots[i].Some?
    ensures Ready(slots) == n
  {
    if n > 0 {
      ReadyIs(slots[1..], n - 1);
    }
  }

  function WidenedTo(slots: seq<Option<Payload>>, n: nat): seq<Option<Payload>> {
    if n <= |slots| then slots else Widened(slots, n - 1)
  }

  lemma WidenedStep(slots: seq<Option<Payload>>, at: nat)
    ensures at < |WidenedTo(slots, at)| <==> at < |slots|
    ensures at < |slots| ==> WidenedTo(slots, at + 1) == WidenedTo(slots, at) == Widened(slots, at)
    ensures at >= |slots| ==> WidenedTo(slots, at + 1) == Widened(slots, at) == WidenedTo(slots, at) + [None]
    ensures at <= |WidenedTo(slots, at)|
  {
  }

  lemma SlotsLength(received: u16, buffer: seq<Slot>, a: Arranged)
    requires ShowsSlots(received, buffer, a)
    ensures |buffer| == |a.slots| && received == Wrap(a.base)
  {
  }

  lemma SlotAt(received: u16, buffer: seq<Slot>, a: Arranged, i: nat)
    requires ShowsSlots(received, buffer, a) && i < |buffer|
    ensures i < |a.slots| && buffer[i] == Slot(Wrap(a.base + i), a.slots[i])
  {
  }

  lemma AppendSlot(received: u16, buffer: seq<Slot>, a: Arranged)
    requires ShowsSlots(received, buffer, a)
    ensures ShowsSlots(received, buffer + [Slot(Wrap(a.base + |buffer|), None)], a.(slots := a.slots + [None]))
  {
    hide Wrap;
  }

  lemma FillSlot(received: u16, buffer: seq<Slot>, a: Arranged, i: nat, m: Payload)
    requires ShowsSlots(received, buffer, a) && i < |buffer| && i < |a.slots|
    ensures ShowsSlots(received, buffer[i := Slot(Wrap(a.base + i), Some(m))], a.(slots := a.slots[i := Some(m)]))
  {
    hide Wrap;
  }

  // ----- the two together, with messages that wait for entities -----

  /** `delivered` is all the arranger has put out; `incoming` the part of it not yet handed to the caller. */
  datatype Receiver = Receiver(
    record: Record, waiting: map<int, Staged>, arranged: Arranged,
    incoming: seq<Payload>, delivered: seq<Payload>, broken: bool)

  /** `broken` is the arranger's panic. */
  function Placed(x: Receiver, index: u16, m: Payload): Receiver {
    match Processed(x.arranged, FirstFrom(x.arranged.base, index), m)
    case SlotTakenPanic => x.(broken := true)
    case Handed(a, output) => x.(arranged := a, incoming := x.incoming + output, delivered := x.delivered + output)
  }

  /** A message that refers to missing entities is put aside under a handle. */
  function Heard(x: Receiver, index: u16, m: Payload, wait: Option<int>): Receiver {
    if !LetsThrough(x.record, index) then x
    else
      var y := x.(record := Buffered(x.record, index));
      match wait
      case Some(handle) => y.(waiting := y.waiting[handle := Staged(index, m)])
      case None => Placed(y, index, m)
  }

  function Released(x: Receiver, handle: int): Receiver {
    if handle !in x.waiting then x
    else Placed(x.(waiting := x.waiting - {handle}), x.waiting[handle].index, x.waiting[handle].message)
  }

  function AllReleased(x: Receiver, handles: seq<int>): Receiver
    decreases |handles|
  {
    if handles == [] || x.broken then x else AllReleased(Released(x, handles[0]), handles[1..])
  }

  /** How much of a batch reaches the caller. */
  function Capped(n: nat, cap: Option<nat>): (k: nat)
    ensures k <= n && (k < n <==> cap.Some? && n > cap.value)
  {
    if cap.Some? && n > cap.value then cap.value else n
  }

  class ReliableMessageReceiver {
    const reliableReceiver: ReliableReceiver
    const arranger: OrderedArranger
    var incomingMessages: seq<Payload>
    var waitlistStore: map<int, Staged>
    const maxMessagesPerTick: Option<nat>
    ghost var delivered: seq<Payload>

    ghost predicate Valid()
      reads this, reliableReceiver, arranger
    {
      reliableReceiver.Valid() && arranger.Valid() && reliableReceiver.incomingMessages == []
    }

    ghost function State(): Receiver
      reads this, reliableReceiver, arranger
    {
      Receiver(reliableReceiver.state, waitlistStore, arranger.state, incomingMessages, delivered, false)
    }

    constructor (cap: Option<nat>)
      ensures fresh(reliableReceiver) && fresh(arranger) && Valid() && maxMessagesPerTick == cap
      ensures State() == Receiver(Record(0, []), map[], Arranged(0, []), [], [], false)
    {
      reliableReceiver := new ReliableReceiver();
      arranger := new OrderedArranger();
      incomingMessages, waitlistStore, maxMessagesPerTick, delivered := [], map[], cap, [];
    }

    method Arrange(index: u16, m: Payload) returns (panicked: bool)
      requires Valid()
      modifies this, arranger
      ensures var y := Placed(old(State()), index, m);
              panicked == y.broken && (!panicked ==> Valid() && State() == y)
    {
      hide FirstFrom, Processed;
      var output;
      panicked, output := arranger.Process(index, m);
      if !panicked {
        incomingMessages := incomingMessages + output;
        delivered := delivered + output;
      }
    }

    method BufferMessage(index: u16, m: Payload, wait: Option<int>) returns (panicked: bool)
      requires Valid()
      modifies this, reliableReceiver, arranger
      ensures var y := Heard(old(State()), index, m, wait);
              panicked == y.broken && (!panicked ==> Valid() && State() == y)
    {
      hide FirstFrom, Processed, LetsThrough, Marked;
      reliableReceiver.BufferMessage(index, m);
      var received := reliableReceiver.ReceiveMessages();
      panicked := false;
      if received != [] {
        if wait.Some? {
          waitlistStore := waitlistStore[wait.value := received[0]];
        } else {
          panicked := Arrange(received[0].index, received[0].message);
        }
      }
    }

    /** The entities some waiting messages refer to have come; others have waited too long and are dropped. */
    method ReceiveMessages(expired: set<int>, ready: seq<int>) returns (panicked: bool, messages: seq<Payload>)
      requires Valid()
      modifies this, arranger
      ensures var y := AllReleased(old(State()).(waiting := old(waitlistStore) - expired), ready);
              && panicked == y.broken
              && (!panicked ==>
                    && Valid() && State() == y.(incoming := [])
                    && messages == y.incoming[..Capped(|y.incoming|, maxMessagesPerTick)])
    {
      hide Placed;
      waitlistStore := waitlistStore - expired;
      ghost var start := State();
      assert ready[0..] == ready;
      for i := 0 to |ready|
        invariant Valid() && AllReleased(State(), ready[i..]) == AllReleased(start, ready)
      {
        assert ready[i..][1..] == ready[i + 1..];
        if ready[i] in waitlistStore {
          var item := waitlistStore[ready[i]];
          waitlistStore := waitlistStore - {ready[i]};
          panicked := Arrange(item.index, item.message);
          if panicked {
            return true, [];
          }
        }
      }
      messages := incomingMessages[..Capped(|incomingMessages|, maxMessagesPerTick)];
      incomingMessages := [];
      panicked := false;
    }
  }
}

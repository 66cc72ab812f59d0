/**
 An ordered reliable channel end to end: the sender of `ReliableSenders`, a network that loses,
 copies and reorders, and the receiver of `ReliableReceivers`, whose messages may first wait for
 entities they refer to and may be dropped while they wait
 (`shared/src/world/remote/remote_entity_waitlist.rs`).

 `Step` is what the code does with `u16` indices; `Ideal` the same with unbounded ones. They agree on
 a step exactly if the indices can be told apart there (`Told`), and all promises are about such runs.
 */
module ReliableChannel {
  import opened Options
  import opened Wrapping
  import opened ReliableSenders
  import opened ReliableReceivers

  /** The bound on the sender's queue and the cap on one hand-over, if there are any. */
  datatype Config = Config(depth: Option<nat>, cap: Option<nat>)

  /** `sent` are the messages accepted for sending, `taken` those the caller has got, `lost` how many a cap discarded. */
  datatype State = State(
    sent: seq<Payload>, sender: Sender, clock: nat,
    net: set<Packet>, arrived: set<int>,
    receiver: Receiver, dropped: set<int>,
    taken: seq<Payload>, lost: nat)

  const INITIAL: State := State([], Sender(0, [], []), 0, {}, {},
                                Receiver(Record(0, []), map[], Arranged(0, []), [], [], false), {}, [], 0)

  /**
   `Arrive` may happen any number of times for a packet once flushed, or never. A waiting message is released
   when its entities have come, or dropped when it has waited too long or too many wait for the same entity.
   */
  datatype Event =
    | Send(message: Payload)
    | Collect(now: nat, resend: nat)
    | Flush
    | Arrive(packet: Packet, waits: bool)
    | EntitiesReady(index: int)
    | WaitDropped(index: int)
    | Ack(index: int)
    | Take

  /** What does not depend on how indices are told apart. */
  function Common(c: Config, s: State, e: Event): State {
    match e
    case Send(m) =>
      if Full(s.sender, c.depth) then s
      else s.(sent := s.sent + [m], sender := Queued(s.sender, m, c.depth))
    case Collect(now, resend) =>
      if now < s.clock then s else s.(sender := Collected(s.sender, now, resend), clock := now)
    case Flush => s.(net := s.net + (set p | p in s.sender.outgoing), sender := s.sender.(outgoing := []))
    case WaitDropped(j) =>
      if j !in s.receiver.waiting then s
      else s.(receiver := s.receiver.(waiting := s.receiver.waiting - {j}), dropped := s.dropped + {j})
    case Take =>
      var n := Capped(|s.receiver.incoming|, c.cap);
      s.(taken := s.taken + s.receiver.incoming[..n], lost := s.lost + |s.receiver.incoming| - n,
         receiver := s.receiver.(incoming := []))
    case _ => s
  }

  /** The code: a packet carries its index modulo 2^16, and nothing happens after a panic. */
  function Step(c: Config, s: State, e: Event): State {
    if s.receiver.broken then s
    else
      match e
      case Arrive(p, waits) =>
        if p !in s.net then s
        else
          s.(arrived := s.arrived + {p.index},
             receiver := Heard(s.receiver, Wrap(p.index), p.message, if waits then Some(p.index) else None))
      case EntitiesReady(j) => s.(receiver := Released(s.receiver, j))
      case Ack(j) =>
        if j !in s.arrived then s
        else s.(sender := AckedBy(s.sender, Wrap(j)))
      case _ => Common(c, s, e)
  }

  function Run(c: Config, events: seq<Event>): State {
    if events == [] then INITIAL else Step(c, Run(c, events[..|events| - 1]), events[|events| - 1])
  }

  // ----- the same on unbounded indices -----

  function Settled(x: Receiver, j: int, m: Payload): Receiver {
    if j < x.arranged.base then x.(broken := true)
    else
      match Processed(x.arranged, j, m)
      case SlotTakenPanic => x.(broken := true)
      case Handed(a, output) => x.(arranged := a, incoming := x.incoming + output, delivered := x.delivered + output)
  }

  function IdealHeard(x: Receiver, j: int, m: Payload, waits: bool): Receiver {
    if Has(x.record, j) then x
    else
      var y := x.(record := Marked(x.record, j));
      if waits then y.(waiting := y.waiting[j := Staged(Wrap(j), m)]) else Settled(y, j, m)
  }

  function IdealReleased(x: Receiver, j: int): Receiver {
    if j !in x.waiting then x else Settled(x.(waiting := x.waiting - {j}), j, x.waiting[j].message)
  }

  function Ideal(c: Config, s: State, e: Event): State {
    match e
    case Arrive(p, waits) =>
      if p !in s.net then s
      else s.(arrived := s.arrived + {p.index}, receiver := IdealHeard(s.receiver, p.index, p.message, waits))
    case EntitiesReady(j) => s.(receiver := IdealReleased(s.receiver, j))
    case Ack(j) => if j !in s.arrived then s else s.(sender := Acknowledged(s.sender, j))
    case _ => Common(c, s, e)
  }

  // ----- the invariant -----

  predicate Genuine(sent: seq<Payload>, p: Packet) {
    0 <= p.index < |sent| && sent[p.index] == p.message
  }

  /** The sender holds what was sent; copies under way are genuine. */
  ghost predicate SenderInv(sent: seq<Payload>, x: Sender, net: set<Packet>, depth: Option<nat>) {
    && x.first >= 0 && Next(x) == |sent| && (depth.Some? ==> |x.sending| <= depth.value)
    && (forall j :: Holds(x, j) ==> x.sending[j - x.first].value.message == sent[j])
    && (forall p :: p in x.outgoing ==> Genuine(sent, p))
    && (forall p :: p in net ==> Genuine(sent, p))
  }

  ghost predicate RecordInv(sent: seq<Payload>, r: Record, arrived: set<int>) {
    && Cleared(r) && 0 <= r.base && (forall j :: Has(r, j) ==> j < |sent|)
    && (forall j :: j in arrived ==> 0 <= j < |sent|)
  }

  /**
   What was received has been handed over, sits in its slot, waits for entities, was dropped while it waited,
   or is one of `loose`, on its way to the arranger; nothing is in two places.
   */
  ghost predicate ArrangerInv(sent: seq<Payload>, r: Record, waiting: map<int, Staged>, dropped: set<int>,
                              a: Arranged, loose: set<int>) {
    && 0 <= a.base <= |sent| && At(a, a.base).None?
    && (forall j :: At(a, j).Some? ==> j < |sent| && At(a, j).value == sent[j] && Has(r, j))
    && (forall j :: 0 <= j < a.base ==> Has(r, j))
    && (forall j :: j in waiting ==> a.base <= j < |sent| && waiting[j] == Staged(Wrap(j), sent[j]) && Has(r, j) && At(a, j).None?)
    && (forall j :: a.base <= j && Has(r, j) ==> At(a, j).Some? || j in waiting || j in dropped || j in loose)
    && (forall j :: j in loose ==> a.base <= j < |sent| && Has(r, j) && j !in waiting && j !in dropped && At(a, j).None?)
    && (forall j :: j in dropped ==> a.base <= j < |sent| && Has(r, j) && j !in waiting && At(a, j).None?)
  }

  /** What the caller has got and what is ready for it is all that was delivered, but for what a cap discarded. */
  ghost predicate HandInv(s: State) {
    && |s.taken| + |s.receiver.incoming| + s.lost == |s.receiver.delivered|
    && s.receiver.incoming == s.receiver.delivered[|s.receiver.delivered| - |s.receiver.incoming|..]
    && (s.lost == 0 ==> s.taken + s.receiver.incoming == s.receiver.delivered)
  }

  ghost predicate Core(c: Config, s: State) {
    && SenderInv(s.sent, s.sender, s.net, c.depth)
    && RecordInv(s.sent, s.receiver.record, s.arrived)
    && ArrangerInv(s.sent, s.receiver.record, s.receiver.waiting, s.dropped, s.receiver.arranged, {})
    && s.receiver.delivered == s.sent[..s.receiver.arranged.base]
    && !s.receiver.broken && HandInv(s)
  }

  /** Every message is received or still held by the sender, and what has arrived is received. */
  ghost predicate Reliable(s: State) {
    && (forall j :: 0 <= j < |s.sent| ==> Has(s.receiver.record, j) || Holds(s.sender, j))
    && (forall j :: j in s.arrived ==> Has(s.receiver.record, j))
  }

  ghost predicate Inv(c: Config, s: State) {
    Core(c, s) && Reliable(s)
  }

  // ----- the arranger keeps its part -----

  function FilledWith(a: Arranged, j: int, m: Payload): Arranged
    requires a.base <= j
  {
    Arranged(a.base, Widened(a.slots, j - a.base)[j - a.base := Some(m)])
  }

  function Popped(b: Arranged): Arranged {
    Arranged(b.base + Ready(b.slots), b.slots[Ready(b.slots)..])
  }

  lemma FilledAt(a: Arranged, j: int, m: Payload, i: int)
    requires a.base <= j
    ensures At(FilledWith(a, j, m), i) == if i == j then Some(m) else At(a, i)
  {
  }

  lemma PoppedAt(b: Arranged, i: int)
    ensures At(Popped(b), i) == if i >= Popped(b).base then At(b, i) else None
    ensures b.base <= i < Popped(b).base ==> At(b, i).Some?
    ensures At(Popped(b), Popped(b).base).None? && b.base <= Popped(b).base
    ensures At(b, b.base).Some? ==> b.base < Popped(b).base
  {
  }

  lemma ProcessedIs(a: Arranged, j: int, m: Payload)
    requires a.base <= j && At(a, j).None?
    ensures var b := FilledWith(a, j, m);
            Processed(a, j, m) == Handed(Popped(b), Payloads(b.slots[..Ready(b.slots)]))
  {
  }

  lemma OutputIsNext(sent: seq<Payload>, b: Arranged)
    requires 0 <= b.base <= Popped(b).base <= |sent|
    requires forall i :: b.base <= i < Popped(b).base ==> At(b, i) == Some(sent[i])
    ensures sent[..b.base] + Payloads(b.slots[..Ready(b.slots)]) == sent[..Popped(b).base]
  {
    var n := Ready(b.slots);
    var out := Payloads(b.slots[..n]);
    forall i | 0 <= i < n ensures out[i] == sent[b.base + i] {
      assert At(b, b.base + i) == Some(sent[b.base + i]);
    }
  }

  /** Handing a loose message to the arranger settles it, and what comes out continues what was delivered. */
  lemma ArrangeKeeps(sent: seq<Payload>, r: Record, waiting: map<int, Staged>, dropped: set<int>, a: Arranged, j: int)
    requires ArrangerInv(sent, r, waiting, dropped, a, {j})
    ensures var h := Processed(a, j, sent[j]);
            && h.Handed? && ArrangerInv(sent, r, waiting, dropped, h.a, {})
            && a.base <= h.a.base && sent[..a.base] + h.output == sent[..h.a.base]
            && (j == a.base ==> h.a.base > a.base)
  {
    assert j in {j};
    var b := FilledWith(a, j, sent[j]);
    var c := Popped(b);
    ProcessedIs(a, j, sent[j]);
    hide At, Processed, FilledWith, Popped, Has;
    SettleSlots(sent, r, waiting, dropped, a, j);
    forall i | b.base <= i < c.base ensures At(b, i) == Some(sent[i]) {
      FilledAt(a, j, sent[j], i);
      PoppedAt(b, i);
    }
    OutputIsNext(sent, b);
  }

  lemma SettleSlots(sent: seq<Payload>, r: Record, waiting: map<int, Staged>, dropped: set<int>, a: Arranged, j: int)
    requires ArrangerInv(sent, r, waiting, dropped, a, {j})
    ensures var c := Popped(FilledWith(a, j, sent[j]));
            ArrangerInv(sent, r, waiting, dropped, c, {}) && a.base <= c.base && (j == a.base ==> c.base > a.base)
  {
    assert j in {j};
    var b := FilledWith(a, j, sent[j]);
    var c := Popped(b);
    assert b.base == a.base;
    hide At, FilledWith, Popped, Has;
    forall i
      ensures At(c, i) == if i < c.base then None else if i == j then Some(sent[j]) else At(a, i)
      ensures a.base <= i < c.base ==> i == j || At(a, i).Some?
    {
      FilledAt(a, j, sent[j], i);
      PoppedAt(b, i);
    }
    PoppedAt(b, j);
    FilledAt(a, j, sent[j], a.base);
    assert c.base > a.base ==> c.base - 1 == j || At(a, c.base - 1).Some?;
  }

  // ----- every unbounded step keeps the invariant -----

  /** All but the arranger's part, with one message on its way there. */
  ghost predicate AlmostCore(c: Config, s: State, j: int) {
    && SenderInv(s.sent, s.sender, s.net, c.depth)
    && RecordInv(s.sent, s.receiver.record, s.arrived)
    && ArrangerInv(s.sent, s.receiver.record, s.receiver.waiting, s.dropped, s.receiver.arranged, {j})
    && s.receiver.delivered == s.sent[..s.receiver.arranged.base]
    && !s.receiver.broken && HandInv(s)
    && 0 <= j < |s.sent|
  }

  lemma HandGrows(s: State, y: Receiver, out: seq<Payload>)
    requires HandInv(s) && y.incoming == s.receiver.incoming + out && y.delivered == s.receiver.delivered + out
    ensures HandInv(s.(receiver := y))
  {
    var x := s.receiver;
    assert s.taken + (x.incoming + out) == (s.taken + x.incoming) + out;
    assert y.delivered[|x.delivered| - |x.incoming|..] == x.incoming + out;
  }

  lemma SettledKeeps(c: Config, s: State, j: int)
    requires AlmostCore(c, s, j)
    ensures var t := s.(receiver := Settled(s.receiver, j, s.sent[j]));
            Core(c, t) && (j == s.receiver.arranged.base ==> |t.receiver.delivered| > |s.receiver.delivered|)
  {
    assert j in {j};
    var x := s.receiver;
    hide SenderInv, RecordInv, Processed, HandInv;
    ArrangeKeeps(s.sent, x.record, x.waiting, s.dropped, x.arranged, j);
    hide ArrangerInv;
    HandGrows(s, Settled(x, j, s.sent[j]), Processed(x.arranged, j, s.sent[j]).output);
  }

  /** A new index in the record is loose until it is arranged or put to wait. */
  lemma MarkedKeeps(sent: seq<Payload>, r: Record, arrived: set<int>, waiting: map<int, Staged>, dropped: set<int>,
                    a: Arranged, j: int)
    requires RecordInv(sent, r, arrived) && ArrangerInv(sent, r, waiting, dropped, a, {}) && 0 <= j < |sent| && !Has(r, j)
    ensures RecordInv(sent, Marked(r, j), arrived + {j}) && ArrangerInv(sent, Marked(r, j), waiting, dropped, a, {j})
  {
    forall i ensures Has(Marked(r, j), i) <==> Has(r, i) || i == j {
      MarkedExact(r, j, i);
    }
    MarkedExact(r, j, j);
    hide Marked, Has, At, Cleared;
  }

  lemma NewIsLoose(c: Config, s: State, p: Packet)
    requires Core(c, s) && p in s.net && !Has(s.receiver.record, p.index)
    ensures p.message == s.sent[p.index]
    ensures AlmostCore(c, s.(arrived := s.arrived + {p.index},
                            receiver := s.receiver.(record := Marked(s.receiver.record, p.index))), p.index)
  {
    assert Genuine(s.sent, p);
    var x := s.receiver;
    MarkedKeeps(s.sent, x.record, s.arrived, x.waiting, s.dropped, x.arranged, p.index);
  }

  lemma WaitKeeps(sent: seq<Payload>, r: Record, waiting: map<int, Staged>, dropped: set<int>, a: Arranged, j: int)
    requires ArrangerInv(sent, r, waiting, dropped, a, {j}) && 0 <= j < |sent|
    ensures ArrangerInv(sent, r, waiting[j := Staged(Wrap(j), sent[j])], dropped, a, {})
  {
    assert j in {j};
    hide At, Has, Wrap;
  }

  lemma OldKeeps(c: Config, s: State, j: int)
    requires Core(c, s) && 0 <= j < |s.sent|
    ensures Core(c, s.(arrived := s.arrived + {j}))
  {
    hide SenderInv, ArrangerInv, Has;
  }

  lemma NewWaits(c: Config, s: State, j: int)
    requires AlmostCore(c, s, j)
    ensures Core(c, s.(receiver := s.receiver.(waiting := s.receiver.waiting[j := Staged(Wrap(j), s.sent[j])])))
  {
    var x := s.receiver;
    WaitKeeps(s.sent, x.record, x.waiting, s.dropped, x.arranged, j);
    hide SenderInv, RecordInv, ArrangerInv, Wrap;
  }

  lemma ArriveKeeps(c: Config, s: State, p: Packet, waits: bool)
    requires Core(c, s)
    ensures Core(c, Ideal(c, s, Arrive(p, waits)))
  {
    if p in s.net {
      var j, x := p.index, s.receiver;
      assert Genuine(s.sent, p);
      hide Core, AlmostCore, Marked, Has, Settled, Wrap;
      if Has(x.record, j) {
        OldKeeps(c, s, j);
      } else {
        NewIsLoose(c, s, p);
        var t := s.(arrived := s.arrived + {j}, receiver := x.(record := Marked(x.record, j)));
        if waits {
          NewWaits(c, t, j);
        } else {
          SettledKeeps(c, t, j);
        }
      }
    }
  }

  lemma ReleasedIsLoose(c: Config, s: State, j: int)
    requires Core(c, s) && j in s.receiver.waiting
    ensures AlmostCore(c, s.(receiver := s.receiver.(waiting := s.receiver.waiting - {j})), j)
    ensures s.receiver.waiting[j] == Staged(Wrap(j), s.sent[j])
  {
    hide SenderInv, RecordInv, Has, At, Wrap;
    assert s.receiver.arranged.base <= j < |s.sent|;
  }

  lemma ReadyKeeps(c: Config, s: State, j: int)
    requires Core(c, s)
    ensures Core(c, Ideal(c, s, EntitiesReady(j)))
  {
    if j in s.receiver.waiting {
      ReleasedIsLoose(c, s, j);
      hide Settled, Core, AlmostCore;
      SettledKeeps(c, s.(receiver := s.receiver.(waiting := s.receiver.waiting - {j})), j);
    }
  }

  lemma DropKeeps(c: Config, s: State, j: int)
    requires Core(c, s)
    ensures Core(c, Ideal(c, s, WaitDropped(j)))
  {
    hide SenderInv, RecordInv, Has, At, Wrap;
  }

  lemma TakeKeeps(c: Config, s: State)
    requires Core(c, s)
    ensures Core(c, Ideal(c, s, Take))
  {
    hide SenderInv, RecordInv, ArrangerInv;
    var n := Capped(|s.receiver.incoming|, c.cap);
    assert n == |s.receiver.incoming| ==> s.receiver.incoming[..n] == s.receiver.incoming;
    assert s.taken + s.receiver.incoming + [] == s.taken + s.receiver.incoming;
  }

  lemma QueuedHeld(sent: seq<Payload>, x: Sender, net: set<Packet>, depth: Option<nat>, m: Payload)
    requires SenderInv(sent, x, net, depth) && !Full(x, depth)
    ensures SenderInv(sent + [m], Queued(x, m, depth), net, depth)
  {
    var y := Queued(x, m, depth);
    forall j ensures Holds(y, j) <==> Holds(x, j) || j == |sent| {
    }
    forall p | p in net || p in x.outgoing ensures Genuine(sent + [m], p) {
      assert Genuine(sent, p);
    }
  }

  lemma QueuedArranged(sent: seq<Payload>, r: Record, waiting: map<int, Staged>, dropped: set<int>, a: Arranged, m: Payload)
    requires ArrangerInv(sent, r, waiting, dropped, a, {})
    ensures ArrangerInv(sent + [m], r, waiting, dropped, a, {})
  {
    hide At, Has, Wrap;
  }

  lemma SendKeeps(c: Config, s: State, m: Payload)
    requires Core(c, s)
    ensures Core(c, Ideal(c, s, Send(m)))
  {
    if !Full(s.sender, c.depth) {
      var x := s.receiver;
      QueuedHeld(s.sent, s.sender, s.net, c.depth, m);
      QueuedArranged(s.sent, x.record, x.waiting, s.dropped, x.arranged, m);
      assert 0 <= x.arranged.base <= |s.sent|;
      hide SenderInv, ArrangerInv, Queued, Has;
    }
  }

  lemma CollectedHeld(sent: seq<Payload>, x: Sender, net: set<Packet>, depth: Option<nat>, now: nat, resend: nat)
    requires SenderInv(sent, x, net, depth)
    ensures SenderInv(sent, Collected(x, now, resend), net, depth)
  {
    var y := Collected(x, now, resend);
    forall j ensures Holds(y, j) <==> Holds(x, j) {
    }
    forall p | p in y.outgoing ensures Genuine(sent, p) {
      if p !in x.outgoing {
        DuePacketsExact(x.first, x.sending, now, resend, p);
        assert Holds(x, p.index);
      }
    }
  }

  lemma CollectKeeps(c: Config, s: State, now: nat, resend: nat)
    requires Core(c, s)
    ensures Core(c, Ideal(c, s, Collect(now, resend)))
  {
    CollectedHeld(s.sent, s.sender, s.net, c.depth, now, resend);
    hide SenderInv, RecordInv, ArrangerInv, Collected;
  }

  lemma FlushKeeps(c: Config, s: State)
    requires Core(c, s)
    ensures Core(c, Ideal(c, s, Flush))
  {
    hide RecordInv, ArrangerInv, Has;
  }

  lemma AckHeld(sent: seq<Payload>, x: Sender, net: set<Packet>, depth: Option<nat>, j: int)
    requires SenderInv(sent, x, net, depth)
    ensures SenderInv(sent, Acknowledged(x, j), net, depth)
  {
    hide Acknowledged;
    var y := Acknowledged(x, j);
    AcknowledgedExact(x, j, j);
    forall i | Holds(y, i) ensures y.sending[i - y.first].value.message == sent[i] {
      AcknowledgedExact(x, j, i);
    }
  }

  lemma AckKeeps(c: Config, s: State, j: int)
    requires Core(c, s)
    ensures Core(c, s.(sender := Acknowledged(s.sender, j))) && Core(c, Ideal(c, s, Ack(j)))
  {
    hide SenderInv, RecordInv, ArrangerInv, Acknowledged;
    AckHeld(s.sent, s.sender, s.net, c.depth, j);
  }

  lemma IdealKeeps(c: Config, s: State, e: Event)
    requires Core(c, s)
    ensures Core(c, Ideal(c, s, e))
  {
    hide Core, Ideal;
    match e
    case Send(m) => SendKeeps(c, s, m);
    case Collect(now, resend) => CollectKeeps(c, s, now, resend);
    case Flush => FlushKeeps(c, s);
    case Arrive(p, waits) => ArriveKeeps(c, s, p, waits);
    case EntitiesReady(j) => ReadyKeeps(c, s, j);
    case WaitDropped(j) => DropKeeps(c, s, j);
    case Ack(j) => AckKeeps(c, s, j);
    case Take => TakeKeeps(c, s);
  }

  lemma IdealReliable(c: Config, s: State, e: Event)
    requires Core(c, s) && Reliable(s)
    ensures Reliable(Ideal(c, s, e))
  {
    match e
    case Send(m) =>
      if !Full(s.sender, c.depth) {
        var x := Queued(s.sender, m, c.depth);
        forall j | Holds(s.sender, j) || j == |s.sent| ensures Holds(x, j) {
        }
      }
    case Collect(now, resend) =>
      forall j | Holds(s.sender, j) ensures Holds(Collected(s.sender, now, resend), j) {
      }
    case Flush => FlushReliable(s);
    case Arrive(p, waits) => ArriveReliable(c, s, p, waits);
    case EntitiesReady(j) => SameRecord(s.receiver, j);
    case Ack(j) =>
      if j in s.arrived {
        hide Acknowledged;
        forall i | Holds(s.sender, i) && i != j ensures Holds(Acknowledged(s.sender, j), i) {
          AcknowledgedExact(s.sender, j, i);
        }
      }
    case _ =>
  }

  lemma FlushReliable(s: State)
    requires Reliable(s)
    ensures Reliable(s.(sender := s.sender.(outgoing := [])))
  {
    hide Has;
    forall j | Holds(s.sender, j) ensures Holds(s.sender.(outgoing := []), j) {
    }
  }

  lemma SameRecord(x: Receiver, j: int)
    ensures IdealReleased(x, j).record == x.record
  {
  }

  lemma ArriveReliable(c: Config, s: State, p: Packet, waits: bool)
    requires Core(c, s) && Reliable(s)
    ensures Reliable(Ideal(c, s, Arrive(p, waits)))
  {
    if p in s.net && !Has(s.receiver.record, p.index) {
      var r := s.receiver.record;
      assert Ideal(c, s, Arrive(p, waits)).receiver.record == Marked(r, p.index);
      forall i ensures Has(Marked(r, p.index), i) <==> Has(r, i) || i == p.index {
        MarkedExact(r, p.index, i);
      }
      hide Marked, Has;
    }
  }

  lemma InitialInv(c: Config)
    ensures Inv(c, INITIAL)
  {
  }

  // ----- when the code does the unbounded step -----

  /**
   The residues tell the indices apart in this step: an old copy does not pass for a new message, a new message
   does not seem old and lies less than a full range past the base of the record and of the arranger, and an
   acknowledgement finds the message it means, or none if that one is held no more.
   */
  ghost predicate Told(s: State, e: Event) {
    var x := s.receiver;
    match e
    case Arrive(p, waits) =>
      p in s.net ==>
        if Has(x.record, p.index) then !LetsThrough(x.record, Wrap(p.index))
        else Passes(x.record, p.index) && (waits || p.index - x.arranged.base < 0x1_0000)
    case EntitiesReady(j) => j in x.waiting ==> j - x.arranged.base < 0x1_0000
    case Ack(j) => j in s.arrived ==> FirstHeld(s.sender, Wrap(j), 0) == if Holds(s.sender, j) then Some(j) else None
    case _ => true
  }

  /** The record takes a new index for what it is. */
  predicate Passes(r: Record, j: int) {
    !SeemsOld(r, Wrap(j)) && j - r.base < 0x1_0000
  }

  /** The arranger finds the right slot exactly within a full range of its base. */
  lemma PlacedIff(x: Receiver, j: int, m: Payload)
    requires x.arranged.base <= j && At(x.arranged, j).None? && At(x.arranged, x.arranged.base).None? && !x.broken
    ensures Placed(x, Wrap(j), m) == Settled(x, j, m) <==> j - x.arranged.base < 0x1_0000
  {
    var a := x.arranged;
    var i := FirstFrom(a.base, Wrap(j));
    FirstFromIff(a.base, j);
    if i != j {
      ProcessedIs(a, j, m);
      FilledAt(a, j, m, j);
      FilledAt(a, j, m, a.base);
      PoppedAt(FilledWith(a, j, m), a.base);
      PoppedAt(FilledWith(a, j, m), j);
      assert At(Settled(x, j, m).arranged, j) == Some(m);
      if At(a, i).None? {
        ProcessedIs(a, i, m);
        FilledAt(a, i, m, j);
        PoppedAt(FilledWith(a, i, m), j);
        assert At(Placed(x, Wrap(j), m).arranged, j) == None;
      }
    }
  }

  /** The arranger's base is not past the record's, and nothing under way is past what was sent. */
  lemma BasesInOrder(c: Config, s: State)
    requires Core(c, s)
    ensures s.receiver.arranged.base <= s.receiver.record.base <= |s.sent| == Next(s.sender)
    ensures !Has(s.receiver.record, s.receiver.record.base)
    ensures forall p :: p in s.net ==> 0 <= p.index < |s.sent|
  {
    var r := s.receiver.record;
    MarkedExact(r, 0, 0);
    assert r.base > 0 ==> Has(r, r.base - 1);
    assert Has(r, r.base) || s.receiver.arranged.base <= r.base;
    forall p | p in s.net ensures 0 <= p.index < |s.sent| { assert Genuine(s.sent, p); }
  }

  lemma OldArrivalIff(c: Config, s: State, p: Packet, waits: bool)
    requires Core(c, s) && p in s.net && Has(s.receiver.record, p.index)
    ensures Step(c, s, Arrive(p, waits)) == Ideal(c, s, Arrive(p, waits)) <==> !LetsThrough(s.receiver.record, Wrap(p.index))
  {
    var x := s.receiver;
    hide Marked, Placed;
    if LetsThrough(x.record, Wrap(p.index)) {
      var k := FirstFrom(x.record.base, Wrap(p.index));
      MarkedExact(x.record, k, k);
      assert Has(Step(c, s, Arrive(p, waits)).receiver.record, k) by {
        PlacedRecord(x.(record := Marked(x.record, k)), Wrap(p.index), p.message);
      }
    }
  }

  /** What the record makes of a new index: it marks that index exactly if it takes it for what it is. */
  lemma BufferedIff(r: Record, j: int)
    requires Cleared(r) && !Has(r, j)
    ensures LetsThrough(r, Wrap(j)) && FirstFrom(r.base, Wrap(j)) == j <==> Passes(r, j)
    ensures !Passes(r, j) ==> !Has(Buffered(r, Wrap(j)), j)
  {
    FirstFromIff(r.base, j);
    MarkedExact(r, FirstFrom(r.base, Wrap(j)), j);
  }

  lemma HeardRecord(x: Receiver, index: u16, m: Payload, wait: Option<int>)
    ensures Heard(x, index, m, wait).record == Buffered(x.record, index)
  {
    hide Marked, Processed;
  }

  lemma NewArrivalIff(c: Config, s: State, p: Packet, waits: bool)
    requires Core(c, s) && p in s.net && !Has(s.receiver.record, p.index)
    ensures Step(c, s, Arrive(p, waits)) == Ideal(c, s, Arrive(p, waits)) <==> Told(s, Arrive(p, waits))
  {
    var j, x := p.index, s.receiver;
    BufferedIff(x.record, j);
    NewIsLoose(c, s, p);
    assert j in {j};
    if Passes(x.record, j) {
      if !waits { PlacedIff(x.(record := Marked(x.record, j)), j, p.message); }
    } else {
      HeardRecord(x, Wrap(j), p.message, if waits then Some(j) else None);
      MarkedExact(x.record, j, j);
      assert Has(Ideal(c, s, Arrive(p, waits)).receiver.record, j) by { IdealRecord(x, j, p.message, waits); }
      hide Heard, IdealHeard, Marked, Buffered;
    }
  }

  lemma IdealRecord(x: Receiver, j: int, m: Payload, waits: bool)
    requires !Has(x.record, j)
    ensures IdealHeard(x, j, m, waits).record == Marked(x.record, j)
  {
    hide Marked;
  }

  lemma PlacedRecord(x: Receiver, index: u16, m: Payload)
    ensures Placed(x, index, m).record == x.record
  {
  }

  lemma ReadyIff(c: Config, s: State, j: int)
    requires Core(c, s)
    ensures Step(c, s, EntitiesReady(j)) == Ideal(c, s, EntitiesReady(j)) <==> Told(s, EntitiesReady(j))
  {
    if j in s.receiver.waiting {
      ReleasedIsLoose(c, s, j);
      assert j in {j};
      PlacedIff(s.receiver.(waiting := s.receiver.waiting - {j}), j, s.sent[j]);
    }
  }

  lemma AckIff(c: Config, s: State, j: int)
    requires Core(c, s)
    ensures Step(c, s, Ack(j)) == Ideal(c, s, Ack(j)) <==> Told(s, Ack(j))
  {
    hide Acknowledged, FirstHeld;
    var x := s.sender;
    var i := FirstHeld(x, Wrap(j), 0);
    FirstHeldIs(x, Wrap(j), 0, j);
    if i.Some? && i.value != j {
      AcknowledgedExact(x, i.value, i.value);
      AcknowledgedExact(x, j, i.value);
    }
    if !Holds(x, j) { NotHeld(x, j); }
  }

  lemma NotHeld(x: Sender, j: int)
    requires !Holds(x, j)
    ensures Acknowledged(x, j) == x
  {
  }

  /** The code does the unbounded step if and only if the indices are told apart in it. */
  lemma StepIsIdealIff(c: Config, s: State, e: Event)
    requires Core(c, s)
    ensures Step(c, s, e) == Ideal(c, s, e) <==> Told(s, e)
  {
    match e
    case Arrive(p, waits) =>
      if p in s.net {
        if Has(s.receiver.record, p.index) { OldArrivalIff(c, s, p, waits); } else { NewArrivalIff(c, s, p, waits); }
      }
    case EntitiesReady(j) => ReadyIff(c, s, j);
    case Ack(j) => AckIff(c, s, j);
    case _ =>
  }

  /**
   A window that is enough: an arrival within half the range of the record's base and a full range of the arranger's,
   waiting and acknowledgement within the full range of what is due and what is held.
   */
  predicate Near(s: State, e: Event) {
    var x := s.receiver;
    match e
    case Arrive(p, _) => -HALF < p.index - x.record.base < HALF && p.index - x.arranged.base < 0x1_0000
    case EntitiesReady(j) => j - x.arranged.base < 0x1_0000
    case Ack(j) => Next(s.sender) - j <= 0x1_0000 && |s.sender.sending| <= 0x1_0000
    case _ => true
  }

  lemma NearIsTold(c: Config, s: State, e: Event)
    requires Core(c, s) && Near(s, e)
    ensures Told(s, e)
  {
    match e
    case Arrive(p, _) => if p in s.net { LetThroughIff(s.receiver.record, p.index); }
    case Ack(j) => if j in s.arrived { AckFinds(s.sender, j); }
    case _ =>
  }

  /** An index within half the range of the base is let through exactly if it is new. */
  lemma LetThroughIff(r: Record, j: int)
    requires Cleared(r) && -HALF < j - r.base < HALF
    ensures LetsThrough(r, Wrap(j)) <==> !Has(r, j)
    ensures j >= r.base ==> Passes(r, j)
  {
    WindowOrder(j, r.base);
    if j >= r.base { FirstFromIff(r.base, j); }
  }

  lemma AckFinds(x: Sender, j: int)
    requires j < Next(x) <= j + 0x1_0000 && |x.sending| <= 0x1_0000
    ensures FirstHeld(x, Wrap(j), 0) == if Holds(x, j) then Some(j) else None
  {
    hide FirstHeld, Wrap;
    FirstHeldIs(x, Wrap(j), 0, j);
    var i := FirstHeld(x, Wrap(j), 0);
    if i.Some? { SameResidue(i.value, j); }
  }

  // ----- every run in which they are told apart -----

  ghost predicate AllTold(c: Config, events: seq<Event>) {
    forall n :: 0 <= n < |events| ==> Told(Run(c, events[..n]), events[n])
  }

  lemma AllToldPrefix(c: Config, events: seq<Event>, n: nat)
    requires AllTold(c, events) && n <= |events|
    ensures AllTold(c, events[..n])
    ensures n < |events| ==> Told(Run(c, events[..n]), events[n])
  {
    assert forall k :: 0 <= k < n ==> events[..n][..k] == events[..k];
  }

  lemma {:induction false} RunKeeps(c: Config, events: seq<Event>)
    requires AllTold(c, events)
    ensures Inv(c, Run(c, events))
  {
    hide Core, Reliable, Step, Ideal, Told, AllTold;
    if events == [] {
      InitialInv(c);
    } else {
      var n := |events| - 1;
      AllToldPrefix(c, events, n);
      RunKeeps(c, events[..n]);
      StepIsIdealIff(c, Run(c, events[..n]), events[n]);
      IdealKeeps(c, Run(c, events[..n]), events[n]);
      IdealReliable(c, Run(c, events[..n]), events[n]);
    }
  }

  /** What the arranger delivers is a prefix of what was sent: exactly once, in order, and it never panics. */
  lemma DeliveredInOrderExactlyOnce(c: Config, events: seq<Event>)
    requires AllTold(c, events)
    ensures var s := Run(c, events);
            s.receiver.delivered <= s.sent && !s.receiver.broken
  {
    hide Step, SenderInv, RecordInv;
    RunKeeps(c, events);
  }

  /** Nothing is forgotten: what has not been received is still held for sending again. */
  lemma NothingForgotten(c: Config, events: seq<Event>, j: int)
    requires AllTold(c, events) && 0 <= j < |Run(c, events).sent|
    ensures var s := Run(c, events);
            Has(s.receiver.record, j) || (Holds(s.sender, j) && s.sender.sending[j - s.sender.first].value.message == s.sent[j])
  {
    hide Step, RecordInv, ArrangerInv;
    RunKeeps(c, events);
  }

  /** When none waits for entities, all messages before the first one missing have been delivered, unless one was dropped. */
  lemma DeliveredUpToFirstMissingIff(c: Config, events: seq<Event>)
    requires AllTold(c, events) && Run(c, events).receiver.waiting == map[]
    ensures var s := Run(c, events);
            |s.receiver.delivered| == s.receiver.record.base <==> forall j :: j in s.dropped ==> j >= s.receiver.record.base
  {
    hide Step, SenderInv;
    RunKeeps(c, events);
    var s := Run(c, events);
    BasesInOrder(c, s);
    var a := s.receiver.arranged;
    if a.base < s.receiver.record.base { assert Has(s.receiver.record, a.base); }
  }

  // ----- the hand-over -----

  /** Hand-over `n` finds more than the cap. */
  ghost predicate Overflows(c: Config, events: seq<Event>, n: nat) {
    && n < |events| && events[n] == Take
    && c.cap.Some? && |Run(c, events[..n]).receiver.incoming| > c.cap.value
  }

  lemma LostStep(c: Config, s: State, e: Event)
    requires !s.receiver.broken
    ensures Step(c, s, e).lost > 0 <==> s.lost > 0 || (e == Take && c.cap.Some? && |s.receiver.incoming| > c.cap.value)
  {
  }

  lemma {:induction false} LostIff(c: Config, events: seq<Event>)
    requires AllTold(c, events)
    ensures Run(c, events).lost > 0 <==> exists n: nat :: Overflows(c, events, n)
  {
    hide Step, AllTold;
    if events != [] {
      var n := |events| - 1;
      var before := events[..n];
      AllToldPrefix(c, events, n);
      LostIff(c, before);
      DeliveredInOrderExactlyOnce(c, before);
      LostStep(c, Run(c, before), events[n]);
      forall k: nat | k < n ensures Overflows(c, events, k) <==> Overflows(c, before, k) {
        assert before[..k] == events[..k];
      }
      assert Run(c, events).lost > 0 <==> Run(c, before).lost > 0 || Overflows(c, events, n);
    }
  }

  /** The caller gets all that is delivered, in order, if and only if no batch exceeds the cap. */
  lemma HandedOverIff(c: Config, events: seq<Event>)
    requires AllTold(c, events)
    ensures var s := Run(c, events);
            && (s.taken + s.receiver.incoming == s.receiver.delivered <==> !exists n: nat :: Overflows(c, events, n))
            && ((!exists n: nat :: Overflows(c, events, n)) ==> s.taken <= s.sent)
  {
    LostIff(c, events);
    RunKeeps(c, events);
    var s := Run(c, events);
    hide SenderInv, RecordInv, ArrangerInv;
    if s.lost == 0 {
      assert s.taken <= s.taken + s.receiver.incoming;
    }
  }

  /**
   Every told run: a hand-over goes on where the last one stopped, discarded messages included, and gives the caller
   all that has been delivered since, or the first `cap` of it.
   */
  lemma EachHandOver(c: Config, events: seq<Event>)
    requires AllTold(c, events)
    ensures var s, t := Run(c, events), Step(c, Run(c, events), Take);
            var from, to := |s.taken| + s.lost, |s.receiver.delivered|;
            var upto := if c.cap.Some? && to - from > c.cap.value then from + c.cap.value else to;
            && from <= upto <= to <= |s.sent| && t.taken == s.taken + s.sent[from..upto]
            && |t.taken| + t.lost == to && t.receiver.delivered == s.receiver.delivered
  {
    hide *;
    RunKeeps(c, events);
    HandsOverNext(c, Run(c, events));
  }

  lemma HandsOverNext(c: Config, s: State)
    requires Inv(c, s)
    ensures var t := Step(c, s, Take);
            var from, to := |s.taken| + s.lost, |s.receiver.delivered|;
            var upto := if c.cap.Some? && to - from > c.cap.value then from + c.cap.value else to;
            && from <= upto <= to <= |s.sent| && t.taken == s.taken + s.sent[from..upto]
            && |t.taken| + t.lost == to && t.receiver.delivered == s.receiver.delivered
  {
    hide SenderInv, RecordInv, ArrangerInv, Reliable;
    BaseInRange(c, s);
    var x := s.receiver;
    assert HandInv(s) && x.delivered == s.sent[..x.arranged.base];
    var from, to := |s.taken| + s.lost, |x.delivered|;
    var n := Capped(|x.incoming|, c.cap);
    assert Step(c, s, Take).taken == s.taken + x.incoming[..n];
    assert x.incoming[..n] == s.sent[from..from + n];
  }

  lemma BaseInRange(c: Config, s: State)
    requires Inv(c, s)
    ensures 0 <= s.receiver.arranged.base <= |s.sent|
  {
  }

  // ----- catching up -----

  /** Some told continuation, sending nothing new, delivers everything. */
  ghost predicate CatchesUp(c: Config, events: seq<Event>, more: seq<Event>) {
    && AllTold(c, events + more)
    && Run(c, events + more).sent == Run(c, events).sent == Run(c, events + more).receiver.delivered
  }

  lemma RunMore(c: Config, events: seq<Event>, e: Event)
    ensures Run(c, events + [e]) == Step(c, Run(c, events), e)
    ensures AllTold(c, events) && Told(Run(c, events), e) ==> AllTold(c, events + [e])
  {
    hide Told;
    var all := events + [e];
    assert all[..|events|] == events;
    assert forall k :: 0 <= k < |events| ==> all[..k] == events[..k];
  }

  lemma {:induction false} DropsStay(c: Config, events: seq<Event>, more: seq<Event>, j: int)
    requires j in Run(c, events).dropped
    ensures j in Run(c, events + more).dropped
  {
    if more == [] {
      assert events + more == events;
    } else {
      var n := |more| - 1;
      DropsStay(c, events, more[..n], j);
      assert (events + more[..n]) + [more[n]] == events + more;
      RunMore(c, events + more[..n], more[n]);
    }
  }

  /** A message dropped while it waited is never delivered, nor is anything after it. */
  lemma DroppedBlocks(c: Config, events: seq<Event>, more: seq<Event>, j: int)
    requires AllTold(c, events + more) && j in Run(c, events).dropped
    ensures |Run(c, events + more).receiver.delivered| <= j < |Run(c, events + more).sent|
  {
    DropsStay(c, events, more, j);
    hide Step, SenderInv, RecordInv;
    RunKeeps(c, events + more);
  }

  /** The earliest time, not before the clock, at which a held message is due again. */
  function DueTime(s: State, j: int, resend: nat): nat
    requires Holds(s.sender, j)
  {
    var p := s.sender.sending[j - s.sender.first].value;
    if p.lastSent.Some? && p.lastSent.value + resend > s.clock then p.lastSent.value + resend else s.clock
  }

  lemma Flushed(c: Config, s: State, j: int, resend: nat)
    requires Inv(c, s) && Holds(s.sender, j)
    ensures 0 <= j < |s.sent|
    ensures var t := Step(c, Step(c, s, Collect(DueTime(s, j, resend), resend)), Flush);
            && Packet(j, s.sent[j]) in t.net && t.sent == s.sent && t.receiver == s.receiver && t.dropped == s.dropped
  {
    hide ArrangerInv, RecordInv;
    DuePacketsExact(s.sender.first, s.sender.sending, DueTime(s, j, resend), resend, Packet(j, s.sent[j]));
    hide DuePackets, AllStamped;
  }

  /** The next message to deliver waits for entities, was dropped, or has yet to be received. */
  lemma NextIsSomewhere(c: Config, s: State)
    requires Inv(c, s) && |s.receiver.delivered| < |s.sent|
    ensures var b := s.receiver.arranged.base;
            b in s.receiver.waiting || b in s.dropped || (Holds(s.sender, b) && !Has(s.receiver.record, b))
  {
    hide Has;
    assert At(s.receiver.arranged, s.receiver.arranged.base).None?;
  }

  lemma ReadyAdvances(c: Config, s: State)
    requires Inv(c, s) && s.receiver.arranged.base in s.receiver.waiting
    ensures var b := s.receiver.arranged.base;
            var t := Step(c, s, EntitiesReady(b));
            Told(s, EntitiesReady(b)) && t.sent == s.sent && t.dropped == s.dropped && |t.receiver.delivered| > |s.receiver.delivered|
  {
    var b := s.receiver.arranged.base;
    ReadyIff(c, s, b);
    ReleasedIsLoose(c, s, b);
    hide AlmostCore, Settled;
    SettledKeeps(c, s.(receiver := s.receiver.(waiting := s.receiver.waiting - {b})), b);
  }

  /** The next message to deliver, if it is new, is the first one missing, which always passes. */
  lemma RecordAtArranger(c: Config, s: State, j: int)
    requires Core(c, s) && j == s.receiver.arranged.base && !Has(s.receiver.record, j)
    ensures j == s.receiver.record.base && Passes(s.receiver.record, j)
  {
    BasesInOrder(c, s);
    LetThroughIff(s.receiver.record, j);
  }

  lemma ArrivalAdvances(c: Config, s: State, p: Packet)
    requires Inv(c, s) && p in s.net && p.index == s.receiver.arranged.base && !Has(s.receiver.record, p.index)
    ensures var t := Step(c, s, Arrive(p, false));
            Told(s, Arrive(p, false)) && t.sent == s.sent && t.dropped == s.dropped && |t.receiver.delivered| > |s.receiver.delivered|
  {
    RecordAtArranger(c, s, p.index);
    NewArrivalIff(c, s, p, false);
    NewIsLoose(c, s, p);
    hide AlmostCore, Settled, Marked;
    SettledKeeps(c, s.(arrived := s.arrived + {p.index}, receiver := s.receiver.(record := Marked(s.receiver.record, p.index))), p.index);
  }

  lemma NextCanArrive(c: Config, events: seq<Event>, resend: nat) returns (more: seq<Event>)
    requires AllTold(c, events) && Run(c, events).dropped == {}
    requires |Run(c, events).receiver.delivered| < |Run(c, events).sent|
    ensures var s, t := Run(c, events), Run(c, events + more);
            AllTold(c, events + more) && t.sent == s.sent && t.dropped == {} && |t.receiver.delivered| > |s.receiver.delivered|
  {
    hide Step, SenderInv, RecordInv, ArrangerInv, Has, AllTold;
    var s := Run(c, events);
    RunKeeps(c, events);
    var b := s.receiver.arranged.base;
    NextIsSomewhere(c, s);
    if b in s.receiver.waiting {
      more := [EntitiesReady(b)];
      RunMore(c, events, EntitiesReady(b));
      ReadyAdvances(c, s);
    } else {
      var now := DueTime(s, b, resend);
      Flushed(c, s, b, resend);
      var p := Packet(b, s.sent[b]);
      var e1 := events + [Collect(now, resend)];
      var e2 := e1 + [Flush];
      RunMore(c, events, Collect(now, resend));
      RunMore(c, e1, Flush);
      RunMore(c, e2, Arrive(p, false));
      RunKeeps(c, e2);
      ArrivalAdvances(c, Run(c, e2), p);
      more := [Collect(now, resend), Flush, Arrive(p, false)];
      assert e2 + [Arrive(p, false)] == events + more;
    }
  }

  lemma {:induction false} CatchUp(c: Config, events: seq<Event>, resend: nat) returns (more: seq<Event>)
    requires AllTold(c, events) && Run(c, events).dropped == {}
    ensures CatchesUp(c, events, more)
    decreases |Run(c, events).sent| - |Run(c, events).receiver.delivered|
  {
    hide Run, AllTold;
    DeliveredInOrderExactlyOnce(c, events);
    var s := Run(c, events);
    if |s.receiver.delivered| == |s.sent| {
      more := [];
      assert events + more == events;
    } else {
      var first := NextCanArrive(c, events, resend);
      DeliveredInOrderExactlyOnce(c, events + first);
      var rest := CatchUp(c, events + first, resend);
      more := first + rest;
      assert (events + first) + rest == events + more;
    }
  }

  lemma SomeMember(d: set<int>) returns (j: int)
    requires d != {}
    ensures j in d
  {
    assert (forall i: int :: i !in d) ==> d == {};
    j :| j in d;
  }

  /** The channel can still deliver everything if and only if no message was dropped while it waited. */
  lemma CatchUpIff(c: Config, events: seq<Event>)
    requires AllTold(c, events)
    ensures (exists more :: CatchesUp(c, events, more)) <==> Run(c, events).dropped == {}
  {
    hide Run, AllTold;
    if Run(c, events).dropped == {} {
      var more := CatchUp(c, events, 0);
    } else {
      var j := SomeMember(Run(c, events).dropped);
      forall more ensures !CatchesUp(c, events, more) {
        if AllTold(c, events + more) { DroppedBlocks(c, events, more, j); }
      }
    }
  }

  // ----- what happens otherwise -----

  /** One message crosses: sent, collected, flushed and received. */
  function Crossing(s: State, m: Payload, waits: bool): seq<Event> {
    [Send(m), Collect(s.clock, 0), Flush, Arrive(Packet(|s.sent|, m), waits)]
  }

  predicate CanSend(c: Config) {
    c.depth.Some? ==> c.depth.value >= 1
  }

  /** A channel with nothing in the sender's queue, and the same with one message under way. */
  predicate Idle(s: State) {
    s.sender == Sender(|s.sent|, [], []) && !s.receiver.broken
  }

  function Underway(s: State, m: Payload): State {
    s.(sent := s.sent + [m], sender := Sender(|s.sent|, [Some(Pending(Some(s.clock), m))], []),
       net := s.net + {Packet(|s.sent|, m)})
  }

  lemma CollectedOne(n: int, m: Payload, now: nat)
    ensures Collected(Sender(n, [Some(Pending(None, m))], []), now, 0)
            == Sender(n, [Some(Pending(Some(now), m))], [Packet(n, m)])
  {
    var sending := [Some(Pending(None, m))];
    assert sending[..0] == [];
    assert DuePackets(n, sending, now, 0) == [Packet(n, m)];
    assert AllStamped(sending, now, 0) == [Some(Pending(Some(now), m))];
  }

  lemma GetsUnderway(c: Config, s: State, m: Payload)
    requires Idle(s) && CanSend(c)
    ensures Step(c, Step(c, Step(c, s, Send(m)), Collect(s.clock, 0)), Flush) == Underway(s, m)
  {
    hide Collected;
    var n := |s.sent|;
    CollectedOne(n, m, s.clock);
    var s1 := Step(c, s, Send(m));
    assert s1.sender == Sender(n, [Some(Pending(None, m))], []);
    var s2 := Step(c, s1, Collect(s.clock, 0));
    assert s2.sender.outgoing == [Packet(n, m)];
    assert (set p | p in s2.sender.outgoing) == {Packet(n, m)};
  }

  lemma AlwaysTold(s: State, e: Event)
    requires e.Send? || e.Collect? || e.Flush? || e.WaitDropped? || e.Take?
    ensures Told(s, e)
  {
  }

  /** Crossing an idle channel ends with the arrival of the message; up to there the indices are told apart. */
  lemma Crosses(c: Config, events: seq<Event>, m: Payload, waits: bool)
    requires CanSend(c) && AllTold(c, events) && Idle(Run(c, events))
    ensures var s := Run(c, events);
            var arrive := Arrive(Packet(|s.sent|, m), waits);
            && Run(c, events + Crossing(s, m, waits)) == Step(c, Underway(s, m), arrive)
            && (Told(Underway(s, m), arrive) ==> AllTold(c, events + Crossing(s, m, waits)))
  {
    hide Run, Step, AllTold, Told, Underway, Idle;
    var s := Run(c, events);
    GetsUnderway(c, s, m);
    var arrive := Arrive(Packet(|s.sent|, m), waits);
    var e1 := events + [Send(m)];
    var e2 := e1 + [Collect(s.clock, 0)];
    var e3 := e2 + [Flush];
    RunMore(c, events, Send(m));
    RunMore(c, e1, Collect(s.clock, 0));
    RunMore(c, e2, Flush);
    RunMore(c, e3, arrive);
    assert e3 + [arrive] == events + Crossing(s, m, waits);
    AlwaysTold(Run(c, events), Send(m));
    AlwaysTold(Run(c, e1), Collect(s.clock, 0));
    AlwaysTold(Run(c, e2), Flush);
  }

  /** A message dropped while it waits silences the channel for good: here the first one. */
  lemma OneDropSilences(c: Config, m: Payload, more: seq<Event>)
    requires CanSend(c)
    ensures var events := Crossing(INITIAL, m, true) + [WaitDropped(0)];
            && AllTold(c, events) && 0 in Run(c, events).dropped
            && (AllTold(c, events + more) ==> Run(c, events + more).receiver.delivered == [])
  {
    hide Run, Step, AllTold, Told, Underway, Idle;
    var start: seq<Event> := [];
    InitialIsIdle(c);
    Crosses(c, start, m, true);
    var events4 := Crossing(INITIAL, m, true);
    assert start + events4 == events4;
    FirstHeard(c, m);
    RunMore(c, events4, WaitDropped(0));
    AlwaysTold(Run(c, events4), WaitDropped(0));
    DropsFirst(c, Run(c, events4));
    var events := events4 + [WaitDropped(0)];
    if AllTold(c, events + more) { DroppedBlocks(c, events, more, 0); }
  }

  lemma FirstHeard(c: Config, m: Payload)
    ensures var s, e := Underway(INITIAL, m), Arrive(Packet(0, m), true);
            Told(s, e) && 0 in Step(c, s, e).receiver.waiting && !Step(c, s, e).receiver.broken
  {
    hide Marked;
  }

  lemma DropsFirst(c: Config, s: State)
    requires 0 in s.receiver.waiting && (Idle(s) || !s.receiver.broken)
    ensures var t := Step(c, s, WaitDropped(0));
            0 in t.dropped && t.sent == s.sent && (Idle(s) ==> Idle(t))
  {
  }

  /** In an idle channel the next index is the first one missing. */
  lemma IdleIsCurrent(c: Config, s: State)
    requires Inv(c, s) && Idle(s)
    ensures s.receiver.record.base == |s.sent| && !Has(s.receiver.record, |s.sent|)
    ensures LetsThrough(s.receiver.record, Wrap(|s.sent|)) && FirstFrom(s.receiver.record.base, Wrap(|s.sent|)) == |s.sent|
  {
    BasesInOrder(c, s);
    LetThroughIff(s.receiver.record, |s.sent|);
  }

  lemma HeardWaiting(x: Receiver, index: u16, m: Payload, wait: Option<int>)
    requires LetsThrough(x.record, index)
    ensures Heard(x, index, m, wait).waiting == if wait.Some? then x.waiting[wait.value := Staged(index, m)] else x.waiting
  {
    hide LetsThrough, Processed;
  }

  lemma AckOne(n: int, e: Pending)
    ensures AckedBy(Sender(n, [Some(e)], []), Wrap(n)) == Sender(n + 1, [], [])
    ensures FirstHeld(Sender(n, [Some(e)], []), Wrap(n), 0) == Some(n)
  {
    var cleared := [Some(e)][0 := None];
    assert cleared[0].None? && cleared[1..] == [];
    CleanedStep(Sender(n, cleared, []));
  }

  /** The state in which the message has just arrived. */
  lemma ArrivesIdle(c: Config, s: State, m: Payload, waits: bool)
    requires Inv(c, s) && Idle(s)
    ensures var e := Arrive(Packet(|s.sent|, m), waits);
            var t := Step(c, Underway(s, m), e);
            && (Told(Underway(s, m), e) <==> waits || |s.sent| - s.receiver.arranged.base < 0x1_0000)
            && t.sender == Underway(s, m).sender && t.sent == s.sent + [m] && t.dropped == s.dropped && |s.sent| in t.arrived
            && t.taken == s.taken && t.lost == s.lost
            && t.receiver == Heard(s.receiver, Wrap(|s.sent|), m, if waits then Some(|s.sent|) else None)
            && t.receiver.waiting.Keys == s.receiver.waiting.Keys + (if waits then {|s.sent|} else {})
  {
    IdleIsCurrent(c, s);
    HeardWaiting(s.receiver, Wrap(|s.sent|), m, if waits then Some(|s.sent|) else None);
    hide Inv, LetsThrough, Heard, Wrap;
  }

  lemma AcksIdle(c: Config, t: State, n: int, e: Pending)
    requires !t.receiver.broken && n in t.arrived && t.sender == Sender(n, [Some(e)], []) && |t.sent| == n + 1
    ensures Told(t, Ack(n)) && Step(c, t, Ack(n)) == t.(sender := Sender(n + 1, [], [])) && Idle(Step(c, t, Ack(n)))
  {
    AckOne(n, e);
    hide AckedBy, FirstHeld, Wrap;
  }

  /** One message crosses an idle channel and is acknowledged. */
  lemma Round(c: Config, events: seq<Event>, m: Payload, waits: bool) returns (more: seq<Event>)
    requires CanSend(c) && AllTold(c, events) && Idle(Run(c, events))
    requires waits || |Run(c, events).sent| - Run(c, events).receiver.arranged.base < 0x1_0000
    ensures AllTold(c, events + more)
    ensures var s, t := Run(c, events), Run(c, events + more);
            && Idle(t) && t.sent == s.sent + [m] && t.dropped == s.dropped && t.taken == s.taken && t.lost == s.lost
            && t.receiver.waiting.Keys == s.receiver.waiting.Keys + (if waits then {|s.sent|} else {})
  {
    hide AllTold, Step, Told, Inv, Idle;
    var s := Run(c, events);
    var n := |s.sent|;
    RunKeeps(c, events);
    ArrivesIdle(c, s, m, waits);
    Crosses(c, events, m, waits);
    var crossed := events + Crossing(s, m, waits);
    DeliveredInOrderExactlyOnce(c, crossed);
    AcksIdle(c, Run(c, crossed), n, Pending(Some(s.clock), m));
    RunMore(c, crossed, Ack(n));
    more := Crossing(s, m, waits) + [Ack(n)];
    assert crossed + [Ack(n)] == events + more;
  }

  /** The first message waits for entities, or is dropped while it waits, and `n - 1` others pass it. */
  lemma {:induction false} HeldBack(c: Config, first: Payload, other: Payload, drop: bool, n: nat) returns (events: seq<Event>)
    requires CanSend(c) && 1 <= n <= 0x1_0000
    ensures var s := Run(c, events);
            && AllTold(c, events) && Idle(s) && |s.sent| == n && s.sent[0] == first
            && (if drop then 0 in s.dropped else 0 in s.receiver.waiting) && s.receiver.arranged.base == 0
  {
    hide AllTold, Idle, Told, Step;
    if n == 1 {
      var start: seq<Event> := [];
      InitialIsIdle(c);
      var more := Round(c, start, first, true);
      events := start + more;
      if drop {
        RunMore(c, events, WaitDropped(0));
        AlwaysTold(Run(c, events), WaitDropped(0));
        DropsFirst(c, Run(c, events));
        events := events + [WaitDropped(0)];
      }
    } else {
      events := HeldBack(c, first, other, drop, n - 1);
      var more := Round(c, events, other, false);
      events := events + more;
    }
    RunKeeps(c, events);
    FirstHoldsBack(c, Run(c, events));
  }

  lemma InitialIsIdle(c: Config)
    ensures AllTold(c, []) && Run(c, []) == INITIAL && Idle(INITIAL)
  {
  }

  lemma FirstHoldsBack(c: Config, s: State)
    requires Core(c, s) && (0 in s.receiver.waiting || 0 in s.dropped)
    ensures s.receiver.arranged.base == 0
  {
  }

  /**
   Once 2^16 messages have been sent since one that waits or was dropped, the next one takes its slot, is delivered
   in its place and lets out what was held up behind it.
   */
  lemma HeldBackIsOvertaken(c: Config, first: Payload, other: Payload, last: Payload, drop: bool) returns (events: seq<Event>)
    requires CanSend(c)
    ensures var s := Run(c, events);
            && |s.sent| == 0x1_0001 && s.sent[0] == first && (if drop then 0 in s.dropped else 0 in s.receiver.waiting)
            && |s.receiver.delivered| > 0 && s.receiver.delivered[0] == last
  {
    var before := HeldBack(c, first, other, drop, 0x1_0000);
    hide AllTold, Step, Idle, Core, Reliable, Told, Underway;
    var s := Run(c, before);
    RunKeeps(c, before);
    Crosses(c, before, last, false);
    OvertakesNow(c, s, last);
    events := before + Crossing(s, last, false);
  }

  lemma HeardIsPlaced(x: Receiver, m: Payload)
    requires LetsThrough(x.record, Wrap(0x1_0000))
    ensures Heard(x, Wrap(0x1_0000), m, None) == Placed(x.(record := Buffered(x.record, 0)), 0, m)
  {
    hide LetsThrough, Placed, Buffered;
  }

  lemma NothingYet(c: Config, s: State)
    requires Inv(c, s) && s.receiver.arranged.base == 0
    ensures At(s.receiver.arranged, 0).None? && s.receiver.delivered == []
  {
  }

  lemma OvertakesNow(c: Config, s: State, m: Payload)
    requires Inv(c, s) && Idle(s)
    requires |s.sent| == 0x1_0000 && s.receiver.arranged.base == 0
    ensures var t := Step(c, Underway(s, m), Arrive(Packet(0x1_0000, m), false));
            && t.sent == s.sent + [m] && t.receiver.waiting.Keys == s.receiver.waiting.Keys && t.dropped == s.dropped
            && |t.receiver.delivered| > 0 && t.receiver.delivered[0] == m
  {
    hide *;
    ArrivesIdle(c, s, m, false);
    IdleIsCurrent(c, s);
    NothingYet(c, s);
    var x := s.receiver;
    assert x.waiting.Keys + {} == x.waiting.Keys;
    HeardIsPlaced(x, m);
    Overtakes(x.(record := Buffered(x.record, 0)), m);
  }

  lemma Overtakes(x: Receiver, m: Payload)
    requires x.arranged.base == 0 && At(x.arranged, 0).None? && x.delivered == []
    ensures var y := Placed(x, 0, m);
            y.delivered != [] && y.delivered[0] == m
  {
    FirstFromIff(0, 0);
    ProcessedIs(x.arranged, 0, m);
    FilledAt(x.arranged, 0, m, 0);
    PoppedAt(FilledWith(x.arranged, 0, m), 0);
  }

  /** In an idle channel with none waiting or dropped everything has been delivered. */
  lemma IdleIsDelivered(c: Config, s: State)
    requires Inv(c, s) && Idle(s) && s.receiver.waiting.Keys == {} && s.dropped == {}
    ensures s.receiver.delivered == s.sent && s.receiver.arranged.base == |s.sent|
  {
    IdleIsCurrent(c, s);
    BasesInOrder(c, s);
    var a := s.receiver.arranged;
    assert a.base < |s.sent| ==> Has(s.receiver.record, a.base);
  }

  /** A run that is idle, with everything delivered. */
  ghost predicate Quiet(c: Config, events: seq<Event>) {
    AllTold(c, events) && Idle(Run(c, events)) && Run(c, events).receiver.waiting.Keys == {} && Run(c, events).dropped == {}
  }

  lemma QuietRound(c: Config, events: seq<Event>, m: Payload) returns (more: seq<Event>)
    requires CanSend(c) && Quiet(c, events)
    ensures var s, t := Run(c, events), Run(c, events + more);
            && Quiet(c, events + more) && t.sent == s.sent + [m] == t.receiver.delivered && t.taken == s.taken && t.lost == s.lost
            && HandInv(t)
  {
    RunKeeps(c, events);
    IdleIsDelivered(c, Run(c, events));
    hide Inv, Idle, AllTold, HandInv;
    more := Round(c, events, m, false);
    RunKeeps(c, events + more);
    IdleIsDelivered(c, Run(c, events + more));
    HasHandInv(c, Run(c, events + more));
  }

  lemma HasHandInv(c: Config, s: State)
    requires Inv(c, s)
    ensures HandInv(s)
  {
  }

  lemma QuietTake(c: Config, events: seq<Event>)
    requires Quiet(c, events)
    ensures var s, t := Run(c, events), Run(c, events + [Take]);
            var n := Capped(|s.receiver.incoming|, c.cap);
            && Quiet(c, events + [Take]) && t.sent == s.sent && t.receiver.delivered == s.receiver.delivered
            && t.taken == s.taken + s.receiver.incoming[..n] && t.lost == s.lost + |s.receiver.incoming| - n
  {
    hide AllTold;
    RunMore(c, events, Take);
  }

  lemma LastReady(s: State, before: seq<Payload>, ready: seq<Payload>)
    requires HandInv(s) && s.receiver.delivered == before + ready && |s.taken| + s.lost == |before|
    ensures s.receiver.incoming == ready
  {
  }

  lemma FirstBatch(c: Config, m1: Payload, m2: Payload) returns (events: seq<Event>)
    requires CanSend(c) && c.cap == Some(1)
    ensures var s := Run(c, events);
            Quiet(c, events) && s.sent == [m1, m2] && s.taken == [m1] && s.lost == 1
  {
    InitialIsIdle(c);
    var start: seq<Event> := [];
    assert Quiet(c, start);
    hide Run, Quiet, HandInv;
    var r1 := QuietRound(c, start, m1);
    var e1 := start + r1;
    assert Run(c, e1).sent == [m1];
    var r2 := QuietRound(c, e1, m2);
    var e2 := e1 + r2;
    assert Run(c, e2).sent == [m1, m2];
    LastReady(Run(c, e2), [], [m1, m2]);
    QuietTake(c, e2);
    events := e2 + [Take];
  }

  /** A capped channel loses messages: of two in one batch the second, and the caller goes on with the third. */
  lemma CappedChannelLoses(c: Config, m1: Payload, m2: Payload, m3: Payload) returns (events: seq<Event>)
    requires CanSend(c) && c.cap == Some(1)
    ensures var s := Run(c, events);
            AllTold(c, events) && s.sent == s.receiver.delivered == [m1, m2, m3] && s.taken == [m1, m3]
  {
    hide Run, Quiet, HandInv;
    var e3 := FirstBatch(c, m1, m2);
    var r3 := QuietRound(c, e3, m3);
    var e4 := e3 + r3;
    assert Run(c, e4).sent == [m1, m2, m3];
    LastReady(Run(c, e4), [m1, m2], [m3]);
    QuietTake(c, e4);
    events := e4 + [Take];
    QuietIsTold(c, events);
  }

  lemma QuietIsTold(c: Config, events: seq<Event>)
    requires Quiet(c, events)
    ensures AllTold(c, events)
  {
  }

  // ----- the receiving object runs the events -----

  function Drops(expired: seq<int>): seq<Event> {
    seq(|expired|, i requires 0 <= i < |expired| => WaitDropped(expired[i]))
  }

  function Readies(ready: seq<int>): seq<Event> {
    seq(|ready|, i requires 0 <= i < |ready| => EntitiesReady(ready[i]))
  }

  lemma {:induction false} BrokenStays(c: Config, events: seq<Event>, more: seq<Event>)
    requires Run(c, events).receiver.broken
    ensures Run(c, events + more) == Run(c, events)
  {
    hide Heard, Released, Common, AckedBy;
    if more == [] {
      assert events + more == events;
    } else {
      var n := |more| - 1;
      BrokenStays(c, events, more[..n]);
      assert (events + more[..n]) + [more[n]] == events + more;
      RunMore(c, events + more[..n], more[n]);
    }
  }

  lemma DropsOne(c: Config, s: State, j: int)
    requires !s.receiver.broken
    ensures var t := Step(c, s, WaitDropped(j));
            t.receiver == s.receiver.(waiting := s.receiver.waiting - {j}) && t.taken == s.taken
  {
    if j !in s.receiver.waiting { assert s.receiver.waiting - {j} == s.receiver.waiting; }
  }

  lemma RemovedInTurn(m: map<int, Staged>, expired: seq<int>)
    requires expired != []
    ensures m - {expired[0]} - (set j | j in expired[1..]) == m - (set j | j in expired)
  {
    assert (set j | j in expired) == {expired[0]} + (set j | j in expired[1..]);
  }

  lemma {:induction false} RunDrops(c: Config, events: seq<Event>, expired: seq<int>)
    requires !Run(c, events).receiver.broken
    ensures var s, t := Run(c, events), Run(c, events + Drops(expired));
            && t.receiver == s.receiver.(waiting := s.receiver.waiting - (set j | j in expired)) && t.taken == s.taken
    decreases |expired|
  {
    hide Run, Step, AllTold;
    var s := Run(c, events);
    if expired == [] {
      assert events + Drops(expired) == events;
      assert (set j | j in expired) == {};
      assert s.receiver.waiting - {} == s.receiver.waiting;
    } else {
      var e := WaitDropped(expired[0]);
      RunMore(c, events, e);
      DropsOne(c, s, expired[0]);
      assert events + Drops(expired) == (events + [e]) + Drops(expired[1..]);
      RunDrops(c, events + [e], expired[1..]);
      RemovedInTurn(s.receiver.waiting, expired);
    }
  }

  lemma {:induction false} RunReadies(c: Config, events: seq<Event>, ready: seq<int>)
    ensures var s, t := Run(c, events), Run(c, events + Readies(ready));
            t.receiver == AllReleased(s.receiver, ready) && t.taken == s.taken
    decreases |ready|
  {
    hide Released, Run;
    var s := Run(c, events);
    if ready == [] {
      assert events + Readies(ready) == events;
    } else if s.receiver.broken {
      BrokenStays(c, events, Readies(ready));
    } else {
      var e := EntitiesReady(ready[0]);
      RunMore(c, events, e);
      assert events + Readies(ready) == (events + [e]) + Readies(ready[1..]);
      RunReadies(c, events + [e], ready[1..]);
    }
  }

  /** What the object does when asked for messages is a run: the expired are dropped, the ready released in turn, the rest taken. */
  lemma ReceivingIsRun(c: Config, events: seq<Event>, expired: seq<int>, ready: seq<int>)
    requires !Run(c, events).receiver.broken
    ensures var s, t := Run(c, events), Run(c, events + Drops(expired) + Readies(ready) + [Take]);
            var y := AllReleased(s.receiver.(waiting := s.receiver.waiting - (set j | j in expired)), ready);
            if y.broken then t.receiver == y
            else t.receiver == y.(incoming := []) && t.taken == s.taken + y.incoming[..Capped(|y.incoming|, c.cap)]
  {
    hide Run, AllReleased, Drops, Readies, Capped;
    RunDrops(c, events, expired);
    RunReadies(c, events + Drops(expired), ready);
    RunMore(c, events + Drops(expired) + Readies(ready), Take);
  }

  // ----- when a message is sent again -----

  /** The step puts a packet of message `j` behind those already staged. */
  ghost predicate Stages(c: Config, s: State, e: Event, j: int) {
    var before, all := s.sender.outgoing, Step(c, s, e).sender.outgoing;
    e.Collect? && exists i :: |before| <= i < |all| && all[i].index == j
  }

  /** When a run last staged a message, if it did. */
  ghost function LastStaged(c: Config, events: seq<Event>, j: int): Option<nat> {
    if events == [] then None
    else
      var n := |events| - 1;
      if Stages(c, Run(c, events[..n]), events[n], j) then Some(events[n].now) else LastStaged(c, events[..n], j)
  }

  /** A collect stages exactly what is held and due. */
  lemma StagesDue(c: Config, s: State, e: Event, j: int)
    requires e.Collect?
    ensures Stages(c, s, e, j) <==>
            !s.receiver.broken && s.clock <= e.now && Holds(s.sender, j) && Due(s.sender.sending[j - s.sender.first].value, e.now, e.resend)
  {
    var x := s.sender;
    var q := DuePackets(x.first, x.sending, e.now, e.resend);
    hide DuePackets;
    if !s.receiver.broken && s.clock <= e.now {
      var all := x.outgoing + q;
      assert Step(c, s, e).sender.outgoing == all;
      if Holds(x, j) && Due(x.sending[j - x.first].value, e.now, e.resend) {
        var p := Packet(j, x.sending[j - x.first].value.message);
        DuePacketsExact(x.first, x.sending, e.now, e.resend, p);
        var i :| 0 <= i < |q| && q[i] == p;
        assert all[|x.outgoing| + i].index == j;
      }
      if Stages(c, s, e, j) {
        var i :| |x.outgoing| <= i < |all| && all[i].index == j;
        assert all[i] == q[i - |x.outgoing|] && all[i] in q;
        DuePacketsExact(x.first, x.sending, e.now, e.resend, all[i]);
      }
    }
  }

  /** The time kept with each message held is when it was last staged. */
  ghost predicate TimesKept(c: Config, events: seq<Event>, j: int) {
    var x, last := Run(c, events).sender, LastStaged(c, events, j);
    && (Holds(x, j) ==> x.sending[j - x.first].value.lastSent == last)
    && (last.Some? ==> j < Next(x) && last.value <= Run(c, events).clock)
  }

  lemma {:induction false} RunKeepsTimes(c: Config, events: seq<Event>, j: int)
    ensures TimesKept(c, events, j)
  {
    hide Step, Stages;
    if events == [] {
      NothingSent(c, j);
    } else {
      var n := |events| - 1;
      RunKeepsTimes(c, events[..n], j);
      StepKeepsTimes(c, Run(c, events[..n]), events[n], j, LastStaged(c, events[..n], j));
    }
  }

  lemma NothingSent(c: Config, j: int)
    ensures !Holds(Run(c, []).sender, j)
  {
  }

  lemma StepKeepsTimes(c: Config, s: State, e: Event, j: int, last: Option<nat>)
    requires Holds(s.sender, j) ==> s.sender.sending[j - s.sender.first].value.lastSent == last
    requires last.Some? ==> j < Next(s.sender) && last.value <= s.clock
    ensures var t := Step(c, s, e);
            var last' := if Stages(c, s, e, j) then Some(e.now) else last;
            && (Holds(t.sender, j) ==> t.sender.sending[j - t.sender.first].value.lastSent == last')
            && (last'.Some? ==> j < Next(t.sender) && last'.value <= t.clock)
  {
    hide Heard, Released, Capped;
    match e
    case Collect(now, resend) => StagesDue(c, s, e, j); hide Stages, DuePackets;
    case Ack(i) => AckKeepsTimes(s.sender, Wrap(i), j); hide AckedBy, Wrap;
    case _ =>
  }

  lemma AckKeepsTimes(x: Sender, index: u16, j: int)
    ensures var y := AckedBy(x, index);
            Next(y) == Next(x) && (Holds(y, j) ==> Holds(x, j) && y.sending[j - y.first] == x.sending[j - x.first])
  {
    hide Acknowledged;
    var i := FirstHeld(x, index, 0);
    if i.Some? { AcknowledgedExact(x, i.value, j); }
  }

  /**
   Every run: a collect sends a message exactly if it is still held and either was never sent or was last sent at
   least the resend time ago.
   */
  lemma SendsExactly(c: Config, events: seq<Event>, e: Event, j: int)
    requires e.Collect? && Run(c, events).clock <= e.now && !Run(c, events).receiver.broken
    ensures var last := LastStaged(c, events, j);
            Stages(c, Run(c, events), e, j) <==>
            Holds(Run(c, events).sender, j) && (last.None? || e.now - last.value >= e.resend)
  {
    RunKeepsTimes(c, events, j);
    StagesDue(c, Run(c, events), e, j);
    hide Run, Step, LastStaged, Stages;
  }

  /** So two sends of one message lie at least the resend time apart, whatever comes between them. */
  lemma ResendsAreSpaced(c: Config, events: seq<Event>, i: nat, k: nat, j: int)
    requires i < k < |events|
    requires Stages(c, Run(c, events[..i]), events[i], j) && Stages(c, Run(c, events[..k]), events[k], j)
    ensures events[k].now - events[i].now >= events[k].resend
  {
    StagesDue(c, Run(c, events[..k]), events[k], j);
    SendsExactly(c, events[..k], events[k], j);
    hide Run, Stages;
    LastIsLast(c, events, i, k, j);
  }

  lemma {:induction false} LastIsLast(c: Config, events: seq<Event>, i: nat, k: nat, j: int)
    requires i < k <= |events| && Stages(c, Run(c, events[..i]), events[i], j)
    ensures LastStaged(c, events[..k], j).Some? && LastStaged(c, events[..k], j).value >= events[i].now
    decreases k
  {
    hide Step;
    assert events[..k][..k - 1] == events[..k - 1];
    if i < k - 1 {
      LastIsLast(c, events, i, k - 1, j);
      if Stages(c, Run(c, events[..k - 1]), events[k - 1], j) {
        RunKeepsTimes(c, events[..k - 1], j);
        StagesDue(c, Run(c, events[..k - 1]), events[k - 1], j);
      }
    }
  }

  // ----- a queue deeper than half the range -----

  /** Every message that is new to the record passes, in every told run. */
  ghost predicate AlwaysPasses(c: Config) {
    forall events: seq<Event>, p: Packet ::
      AllTold(c, events) && p in Run(c, events).net && !Has(Run(c, events).receiver.record, p.index) ==>
        Passes(Run(c, events).receiver.record, p.index)
  }

  predicate Deep(c: Config) {
    c.depth.None? || c.depth.value > HALF
  }

  /** With the queue bounded by half the range no index is too far ahead to be told apart. */
  lemma NeverTooFarAhead(c: Config, s: State, j: int)
    requires Inv(c, s) && !Deep(c) && 0 <= j < |s.sent|
    ensures j - s.receiver.record.base < HALF
    ensures !Has(s.receiver.record, j) ==> Passes(s.receiver.record, j)
  {
    BasesInOrder(c, s);
    var r := s.receiver.record;
    assert r.base < |s.sent| ==> Holds(s.sender, r.base);
    if !Has(r, j) { LetThroughIff(r, j); }
  }

  /** Then it is enough that arrivals and acknowledgements are not too old and the arranger not too far behind. */
  predicate NotStale(s: State, e: Event) {
    match e
    case Arrive(p, _) => -HALF < p.index - s.receiver.record.base && p.index - s.receiver.arranged.base < 0x1_0000
    case Ack(j) => Next(s.sender) - j <= 0x1_0000
    case _ => Near(s, e)
  }

  lemma NotStaleIsTold(c: Config, s: State, e: Event)
    requires Inv(c, s) && !Deep(c) && NotStale(s, e)
    ensures Told(s, e)
  {
    if e.Arrive? && e.packet in s.net {
      assert Genuine(s.sent, e.packet);
      NeverTooFarAhead(c, s, e.packet.index);
    }
    if !e.Arrive? || e.packet in s.net {
      assert c.depth.Some? ==> |s.sender.sending| <= c.depth.value;
      hide Core, Reliable, Has, Told;
      NearIsTold(c, s, e);
    }
  }

  /** New messages always pass if and only if the queue is bounded by half the range. */
  lemma NewArrivalsPassIff(c: Config)
    ensures AlwaysPasses(c) <==> !Deep(c)
  {
    hide Run, AllTold, Core, Reliable, SeemsOld, Has;
    if Deep(c) {
      var events := DeepQueue(c, Payload([]));
      var p := Packet(0x1_0000, Payload([]));
      assert p in Run(c, events).net;
    } else {
      forall events: seq<Event>, p: Packet
        | AllTold(c, events) && p in Run(c, events).net && !Has(Run(c, events).receiver.record, p.index)
        ensures Passes(Run(c, events).receiver.record, p.index)
      {
        RunKeeps(c, events);
        BasesInOrder(c, Run(c, events));
        NeverTooFarAhead(c, Run(c, events), p.index);
      }
    }
  }

  lemma {:induction false} QuietRounds(c: Config, m: Payload, n: nat) returns (events: seq<Event>)
    requires CanSend(c)
    ensures Quiet(c, events) && |Run(c, events).sent| == n
  {
    if n == 0 {
      InitialIsIdle(c);
      events := [];
      assert Quiet(c, events);
    } else {
      hide Run, Quiet;
      events := QuietRounds(c, m, n - 1);
      var more := QuietRound(c, events, m);
      events := events + more;
    }
  }

  function Copies(m: Payload, k: nat): (q: seq<Payload>)
    ensures |q| == k && forall i :: 0 <= i < k ==> q[i] == m
  {
    seq(k, _ => m)
  }

  function Fresh(m: Payload, k: nat, at: Option<nat>): (q: seq<Option<Pending>>)
    ensures |q| == k && forall i :: 0 <= i < k ==> q[i] == Some(Pending(at, m))
  {
    seq(k, _ => Some(Pending(at, m)))
  }

  lemma {:induction false} SendMany(c: Config, events: seq<Event>, m: Payload, k: nat) returns (all: seq<Event>)
    requires AllTold(c, events) && Idle(Run(c, events)) && (c.depth.Some? ==> k <= c.depth.value)
    ensures AllTold(c, all)
    ensures var s := Run(c, events);
            Run(c, all) == s.(sent := s.sent + Copies(m, k), sender := Sender(|s.sent|, Fresh(m, k, None), []))
  {
    hide AllTold, Told;
    var s := Run(c, events);
    if k == 0 {
      all := events;
      assert s.sent + Copies(m, 0) == s.sent && Fresh(m, 0, None) == [];
    } else {
      var before := SendMany(c, events, m, k - 1);
      all := before + [Send(m)];
      RunMore(c, before, Send(m));
      AlwaysTold(Run(c, before), Send(m));
      assert s.sent + Copies(m, k - 1) + [m] == s.sent + Copies(m, k);
      assert Fresh(m, k - 1, None) + [Some(Pending(None, m))] == Fresh(m, k, None);
    }
  }

  /** All of them are put on the wire. */
  lemma FlushMany(c: Config, s: State, m: Payload, n: nat, k: nat)
    requires s.sender == Sender(n, Fresh(m, k, None), []) && k > 0 && !s.receiver.broken
    ensures var t := Step(c, Step(c, s, Collect(s.clock, 0)), Flush);
            && t == s.(sender := Sender(n, Fresh(m, k, Some(s.clock)), []), net := t.net)
            && Packet(n + k - 1, m) in t.net
  {
    var sending := Fresh(m, k, None);
    var p := Packet(n + k - 1, m);
    DuePacketsExact(n, sending, s.clock, 0, p);
    assert AllStamped(sending, s.clock, 0) == Fresh(m, k, Some(s.clock));
    hide DuePackets, AllStamped, Fresh;
    assert p in Collected(s.sender, s.clock, 0).outgoing;
  }

  lemma NotBroken(s: State)
    requires Idle(s)
    ensures !s.receiver.broken
  {
  }

  /** An idle channel with `k` copies of a message put under way. */
  lemma Fills(c: Config, events: seq<Event>, m: Payload, k: nat) returns (all: seq<Event>)
    requires AllTold(c, events) && Idle(Run(c, events)) && k > 0 && (c.depth.Some? ==> k <= c.depth.value)
    ensures AllTold(c, all)
    ensures var s, t := Run(c, events), Run(c, all);
            && |t.sent| == |s.sent| + k && t.receiver == s.receiver && Packet(|s.sent| + k - 1, m) in t.net
            && t.sender == Sender(|s.sent|, Fresh(m, k, Some(t.clock)), [])
  {
    hide *;
    NotBroken(Run(c, events));
    var full := SendMany(c, events, m, k);
    var s := Run(c, full);
    FlushMany(c, s, m, |Run(c, events).sent|, k);
    RunMore(c, full, Collect(s.clock, 0));
    AlwaysTold(s, Collect(s.clock, 0));
    var collected := full + [Collect(s.clock, 0)];
    RunMore(c, collected, Flush);
    AlwaysTold(Run(c, collected), Flush);
    all := collected + [Flush];
  }

  /** A told run with 32769 messages under way, the last of which the record takes for an old one. */
  lemma DeepQueue(c: Config, m: Payload) returns (events: seq<Event>)
    requires Deep(c)
    ensures var s := Run(c, events);
            && AllTold(c, events) && |s.sent| == 0x1_0001 && Packet(0x1_0000, m) in s.net
            && s.sender == Sender(0x8000, Fresh(m, 0x8001, Some(s.clock)), [])
            && !Has(s.receiver.record, 0x1_0000) && SeemsOld(s.receiver.record, Wrap(0x1_0000)) && !s.receiver.broken
  {
    hide Run, AllTold, Core, Reliable, Fresh, Has, SeemsOld, Wrap, Idle;
    var quiet := QuietRounds(c, m, 0x8000);
    var s := Run(c, quiet);
    RunKeeps(c, quiet);
    SeemsOldHalfAhead(c, s);
    events := Fills(c, quiet, m, 0x8001);
  }

  lemma SeemsOldHalfAhead(c: Config, s: State)
    requires Inv(c, s) && Idle(s) && |s.sent| == 0x8000
    ensures !Has(s.receiver.record, 0x1_0000) && SeemsOld(s.receiver.record, Wrap(0x1_0000)) && !s.receiver.broken
  {
    hide Core, Reliable, Has, LetsThrough, FirstFrom;
    IdleIsCurrent(c, s);
    NotYetSent(c, s, 0x1_0000);
  }

  lemma NotYetSent(c: Config, s: State, j: int)
    requires Core(c, s) && j >= |s.sent|
    ensures !Has(s.receiver.record, j)
  {
  }

  /** Sent, but neither held nor staged to be sent again. */
  ghost predicate Gone(s: State, j: int) {
    && 0 <= j < |s.sent| && Next(s.sender) == |s.sent| && !Holds(s.sender, j)
    && (forall p :: p in s.sender.outgoing ==> p.index != j)
  }

  /** Dropped as old and acknowledged all the same: the message is gone. */
  lemma DeepQueueLoses(c: Config, m: Payload) returns (before: seq<Event>, events: seq<Event>)
    requires Deep(c)
    ensures AllTold(c, before) && events == before + [Arrive(Packet(0x1_0000, m), false)] + [Ack(0x1_0000)]
    ensures var s := Run(c, events);
            Core(c, s) && Gone(s, 0x1_0000) && !Has(s.receiver.record, 0x1_0000)
  {
    hide Run, Reliable, Has, SeemsOld, Core, Fresh, Step, Told, AllTold, Gone;
    before := DeepQueue(c, m);
    var s := Run(c, before);
    RunKeeps(c, before);
    var arrive := Arrive(Packet(0x1_0000, m), false);
    RunMore(c, before, arrive);
    RunMore(c, before + [arrive], Ack(0x1_0000));
    events := before + [arrive] + [Ack(0x1_0000)];
    IgnoredThenAcked(c, s, m, 0x8000, 0x8001);
  }

  lemma IgnoredThenAcked(c: Config, s: State, m: Payload, n: nat, k: nat)
    requires Core(c, s) && s.sender == Sender(n, Fresh(m, k, Some(s.clock)), []) && 0 < k <= 0x1_0000 && |s.sent| == n + k
    requires Packet(n + k - 1, m) in s.net && SeemsOld(s.receiver.record, Wrap(n + k - 1))
    ensures var t := Step(c, Step(c, s, Arrive(Packet(n + k - 1, m), false)), Ack(n + k - 1));
            Core(c, t) && Gone(t, n + k - 1) && t.receiver == s.receiver
  {
    hide *;
    var j := n + k - 1;
    Ignored(c, s, Packet(j, m));
    OldKeeps(c, s, j);
    AckedGone(c, s.(arrived := s.arrived + {j}), j);
  }

  lemma Ignored(c: Config, s: State, p: Packet)
    requires p in s.net && SeemsOld(s.receiver.record, Wrap(p.index)) && Core(c, s)
    ensures Step(c, s, Arrive(p, false)) == s.(arrived := s.arrived + {p.index})
  {
    assert !s.receiver.broken;
    hide Core, SeemsOld, Wrap;
  }

  lemma AckedGone(c: Config, s: State, j: int)
    requires Core(c, s) && j in s.arrived && s.sender.outgoing == [] && |s.sender.sending| <= 0x1_0000
    requires s.sender.first <= j == s.sender.first + |s.sender.sending| - 1 == |s.sent| - 1
    ensures var t := Step(c, s, Ack(j));
            Core(c, t) && Gone(t, j) && t.receiver == s.receiver
  {
    AckFinds(s.sender, j);
    AckKeeps(c, s, j);
    AcknowledgedExact(s.sender, j, j);
    assert !s.receiver.broken && s.sender.first >= 0;
    hide Core, Acknowledged, FirstHeld;
  }

  lemma GoneStep(c: Config, s: State, e: Event, j: int)
    requires Gone(s, j)
    ensures Gone(Step(c, s, e), j)
  {
    hide Heard, Released;
    match e
    case Collect(now, resend) =>
      var x := Collected(s.sender, now, resend);
      forall p | p in x.outgoing ensures p.index != j {
        if p !in s.sender.outgoing { DuePacketsExact(s.sender.first, s.sender.sending, now, resend, p); }
      }
    case Ack(i) => GoneAck(s.sender, Wrap(i), j);
    case _ =>
  }

  lemma GoneAck(x: Sender, index: u16, j: int)
    ensures Next(AckedBy(x, index)) == Next(x) && AckedBy(x, index).outgoing == x.outgoing
    ensures Holds(AckedBy(x, index), j) ==> Holds(x, j)
  {
    hide Acknowledged;
    var i := FirstHeld(x, index, 0);
    if i.Some? { AcknowledgedExact(x, i.value, j); }
  }

  /** In no continuation whatsoever does the sender send it again. */
  lemma {:induction false} NeverSentAgain(c: Config, events: seq<Event>, more: seq<Event>, j: int)
    requires Gone(Run(c, events), j)
    ensures Gone(Run(c, events + more), j)
  {
    hide Step, Gone;
    if more == [] {
      assert events + more == events;
    } else {
      var n := |more| - 1;
      NeverSentAgain(c, events, more[..n], j);
      assert (events + more[..n]) + [more[n]] == events + more;
      RunMore(c, events + more[..n], more[n]);
      GoneStep(c, Run(c, events + more[..n]), more[n], j);
    }
  }

  /** The continuation is told apart, and no copy still under way rescues the message. */
  ghost predicate ToldWithout(c: Config, events: seq<Event>, more: seq<Event>, j: int) {
    forall n :: 0 <= n < |more| ==>
      Told(Run(c, events + more[..n]), more[n]) && (more[n].Arrive? ==> more[n].packet.index != j)
  }

  /** So it is lost for good: neither it nor any later message is delivered. */
  lemma {:induction false} GoneForGood(c: Config, events: seq<Event>, more: seq<Event>, j: int)
    requires Core(c, Run(c, events)) && !Has(Run(c, events).receiver.record, j) && 0 <= j < |Run(c, events).sent|
    requires ToldWithout(c, events, more, j)
    ensures var s := Run(c, events + more);
            Core(c, s) && !Has(s.receiver.record, j) && |s.receiver.delivered| <= j < |s.sent|
  {
    hide Step, Told, Ideal, Has, SenderInv;
    if more == [] {
      assert events + more == events;
    } else {
      var n := |more| - 1;
      var before := more[..n];
      assert forall k :: 0 <= k < n ==> before[..k] == more[..k];
      GoneForGood(c, events, before, j);
      var s := Run(c, events + before);
      assert (events + before) + [more[n]] == events + more;
      RunMore(c, events + before, more[n]);
      StepIsIdealIff(c, s, more[n]);
      IdealKeeps(c, s, more[n]);
      StillMissing(c, s, more[n], j);
    }
    assert |Run(c, events + more).receiver.delivered| <= j;
  }

  lemma StillMissing(c: Config, s: State, e: Event, j: int)
    requires Core(c, s) && !Has(s.receiver.record, j) && (e.Arrive? ==> e.packet.index != j)
    ensures !Has(Ideal(c, s, e).receiver.record, j) && |Ideal(c, s, e).sent| >= |s.sent|
  {
    hide Core;
    match e
    case Arrive(p, waits) =>
      if p in s.net && !Has(s.receiver.record, p.index) {
        IdealRecord(s.receiver, p.index, p.message, waits);
        assert Cleared(s.receiver.record) by { CoreCleared(c, s); }
        MarkedExact(s.receiver.record, p.index, j);
        hide IdealHeard, Marked;
      }
    case EntitiesReady(i) => SameRecord(s.receiver, i);
    case _ =>
  }

  lemma CoreCleared(c: Config, s: State)
    requires Core(c, s)
    ensures Cleared(s.receiver.record)
  {
  }
}

/**
 A tick-buffered channel end to end: the client's resend buffer and packet writer,
 a network that loses, duplicates, delays and reorders packets, and the server's
 bit reader and buffer.

 Runs are arbitrary sequences of events; one that is not enabled leaves the state
 as it is, so the theorems quantify over every run.
 */
module TickBufferChannel {
  import opened Options
  import opened Wrapping
  import opened BitCodec
  import opened TickBufferWire
  import opened TickBufferSender
  import opened TickBufferReceiver

  datatype Config = Config(codec: PayloadCodec, sendCapacity: nat, receiveCapacity: u16)

  ghost predicate Sensible(cfg: Config) {
    && cfg.codec.Consuming() && cfg.codec.Faithful()
    && cfg.sendCapacity >= 1
    && cfg.receiveCapacity <= HALF
  }

  /** A queued group with its unbounded tick. */
  datatype Batch = Batch(tick: int, messages: seq<Indexed>)

  datatype Packet = Packet(tick: int, batches: seq<Batch>)

  datatype Delivery = Delivery(tick: int, index: int, message: Message, at: int)

  datatype Client = Client(
    log: Log,
    queue: seq<Batch>,
    // every message buffered while its tick could still reach the server, by tick and slot, and those acknowledged
    pushed: map<(int, int), Message>,
    acked: set<(int, int)>,
    receivable: int)   // latest server-receivable tick collected with

  datatype Server = Server(
    host: int,
    taken: int,        // latest tick collected
    pending: Pending,
    accepted: map<(int, int), Message>,
    takenAt: set<int>,
    delivered: seq<Delivery>)

  datatype System = System(client: Client, network: set<Packet>, server: Server)

  datatype Event =
    | Push(tick: int, message: Message)
    | Acknowledge(tick: int, index: u8)
    | Collect(sending: int, bound: int)
    | Send(tick: int, free: nat, hasWritten: bool)
    | Arrive(packet: Packet)
    | Advance(host: int)
    | Take(at: int, order: seq<u8>)

  // ----- client steps -----

  function GroupsOf(batches: seq<Batch>): seq<Group> {
    if batches == [] then []
    else [Group(Wrap(batches[0].tick), batches[0].messages)] + GroupsOf(batches[1..])
  }

  ghost function Batches(log: Log): seq<Batch> {
    seq(|log|, i requires 0 <= i < |log| => Batch(log[i].tick, Unacknowledged(log[i].list, 0)))
  }

  ghost function NextSlot(log: Log, tick: int): nat {
    if log != [] && log[0].tick == tick then |log[0].list| else 0
  }

  /**
   A push that can still reach the server. One for a tick before the newest buffered tick is ignored; one for
   a tick that is past already is buffered only until the next collect drops it.
   */
  ghost predicate Timely(c: Client, tick: int) {
    tick > c.receivable && (c.log == [] || tick >= c.log[0].tick)
  }

  ghost predicate ClientEnabled(cfg: Config, c: Client, e: Event) {
    match e
    case Push(tick, _) => Near(c.log, tick) && NextSlot(c.log, tick) < 0x100
    case Acknowledge(tick, index) => (tick, index) in c.pushed && Near(c.log, tick)
    case Collect(sending, bound) => bound >= c.receivable && Near(c.log, sending) && Near(c.log, bound)
    case Send(tick, free, hasWritten) =>
      Pack(cfg.codec, GroupsOf(c.queue), free, Wrap(tick), hasWritten).outcome.Wrote?
    case _ => false
  }

  ghost function ClientStep(cfg: Config, c: Client, e: Event): Client
    requires ClientEnabled(cfg, c, e)
  {
    match e
    case Push(tick, message) =>
      c.(log := Pushed(c.log, cfg.sendCapacity, tick, message),
         pushed := if Timely(c, tick) then c.pushed[(tick, NextSlot(c.log, tick)) := message] else c.pushed)
    case Acknowledge(tick, index) =>
      c.(log := Acknowledged(c.log, tick, index), acked := c.acked + {(tick, index)})
    case Collect(sending, bound) =>
      var kept := DroppedThrough(c.log, bound);
      c.(log := kept,
         queue := c.queue + if kept != [] && kept[0].tick > sending then [] else Batches(kept),
         receivable := bound)
    case Send(tick, free, hasWritten) =>
      c.(queue := c.queue[Sent(cfg, c, e)..])
    case _ => c
  }

  /** How many batches a packet takes. */
  ghost function Sent(cfg: Config, c: Client, e: Event): (n: nat)
    requires e.Send? && ClientEnabled(cfg, c, e)
    ensures n <= |c.queue|
  {
    GroupsLength(c.queue);
    PackTakesMaximalPrefix(cfg.codec, GroupsOf(c.queue), e.free, Wrap(e.tick), e.hasWritten);
    Pack(cfg.codec, GroupsOf(c.queue), e.free, Wrap(e.tick), e.hasWritten).outcome.count
  }

  lemma {:induction false} GroupsLength(batches: seq<Batch>)
    ensures |GroupsOf(batches)| == |batches|
  {
    if batches != [] { GroupsLength(batches[1..]); }
  }

  /** The bits of a packet: its batches, closed by the terminator. */
  function PacketBits(c: PayloadCodec, p: Packet): Bits {
    QueueBits(c, Wrap(p.tick), GroupsOf(p.batches)) + ([false] + [])
  }

  // ----- server steps -----

  ghost function Arrivals(cfg: Config, p: Packet): seq<Arrival>
    requires cfg.codec.Consuming()
  {
    ReadGroups(cfg.codec, Wrap(p.tick), PacketBits(cfg.codec, p)).items
  }

  ghost function Deliveries(due: map<u8, Message>, order: seq<u8>, at: int): seq<Delivery>
    requires forall i :: 0 <= i < |order| ==> order[i] in due
  {
    seq(|order|, i requires 0 <= i < |order| => Delivery(at, order[i], due[order[i]], at))
  }

  ghost predicate Lists(due: map<u8, Message>, order: seq<u8>) {
    && (forall i :: 0 <= i < |order| ==> order[i] in due)
    && (forall i, j :: 0 <= i < j < |order| ==> order[i] != order[j])
    && (forall k :: k in due ==> k in order)
  }

  ghost predicate ServerEnabled(cfg: Config, network: set<Packet>, s: Server, e: Event) {
    match e
    case Arrive(p) =>
      p in network && forall i :: 0 <= i < |p.batches| ==> -HALF < p.batches[i].tick - s.host <= HALF
    case Advance(host) => s.host <= host && host + cfg.receiveCapacity <= s.taken + HALF
    case Take(at, order) => s.taken <= at <= s.host && Lists(Due(s.pending, at), order)
    case _ => false
  }

  ghost function ServerStep(cfg: Config, network: set<Packet>, s: Server, e: Event): Server
    requires cfg.codec.Consuming() && ServerEnabled(cfg, network, s, e)
  {
    match e
    case Arrive(p) =>
      s.(pending := ArriveAll(s.pending, s.host, cfg.receiveCapacity, Arrivals(cfg, p)),
         accepted := s.accepted + AcceptedFrom(s.pending, s.host, cfg.receiveCapacity, Arrivals(cfg, p)))
    case Advance(host) => s.(host := host)
    case Take(at, order) =>
      s.(taken := at, pending := TickBufferReceiver.After(s.pending, at), takenAt := s.takenAt + {at},
         delivered := s.delivered + Deliveries(Due(s.pending, at), order, at))
    case _ => s
  }

  ghost predicate Holds(pending: Pending, t: int, i: int, m: Message) {
    t in pending && i in pending[t] && pending[t][i] == m
  }

  ghost predicate Maps(history: map<(int, int), Message>, t: int, i: int, m: Message) {
    (t, i) in history && history[(t, i)] == m
  }

  // ----- runs -----

  ghost predicate Start(s: System) {
    && s.client.log == [] && s.client.queue == [] && s.client.pushed == map[] && s.client.acked == {}
    && s.network == {}
    && s.server.pending == map[] && s.server.accepted == map[] && s.server.takenAt == {} && s.server.delivered == []
    && s.server.taken == s.server.host
  }

  ghost function Step(cfg: Config, s: System, e: Event): System
    requires cfg.codec.Consuming()
  {
    if ClientEnabled(cfg, s.client, e) then
      System(ClientStep(cfg, s.client, e),
             if e.Send? then s.network + {Packet(e.tick, s.client.queue[..Sent(cfg, s.client, e)])} else s.network,
             s.server)
    else if ServerEnabled(cfg, s.network, s.server, e) then
      s.(server := ServerStep(cfg, s.network, s.server, e))
    else s
  }

  ghost function Run(cfg: Config, start: System, events: seq<Event>): System
    requires cfg.codec.Consuming()
  {
    if events == [] then start
    else Step(cfg, Run(cfg, start, events[..|events| - 1]), events[|events| - 1])
  }

  // ----- what every state satisfies: the client -----

  /** A queued or travelling batch holds messages that were pushed at its tick, under the indices they got then. */
  ghost predicate Genuine(pushed: map<(int, int), Message>, b: Batch) {
    forall k :: 0 <= k < |b.messages| ==>
      (b.tick, b.messages[k].index) in pushed && pushed[(b.tick, b.messages[k].index)] == b.messages[k].message
  }

  ghost predicate AllGenuine(pushed: map<(int, int), Message>, batches: seq<Batch>) {
    forall i :: 0 <= i < |batches| ==> Genuine(pushed, batches[i])
  }

  /** One buffered tick against the history: a slot is its pushed message until acknowledged, then empty. */
  ghost predicate Faithful(c: Client, s: Slots) {
    && 0 < |s.list| <= 0x100
    && (s.tick > c.receivable ==>
          forall i :: 0 <= i < |s.list| ==>
            && (s.tick, i) in c.pushed
            && s.list[i] == if (s.tick, i) in c.acked then None else Some(c.pushed[(s.tick, i)]))
  }

  /** What was pushed is past, or not beyond the newest buffered tick, whose pushed messages are its slots. */
  ghost predicate NewestOnTop(c: Client) {
    forall t, i :: (t, i) in c.pushed && t > c.receivable ==>
      && c.log != [] && t <= c.log[0].tick
      && (t == c.log[0].tick ==> 0 <= i < |c.log[0].list|)
  }

  ghost predicate ClientInv(cfg: Config, c: Client) {
    && Ordered(c.log) && |c.log| <= cfg.sendCapacity
    && (forall k :: 0 <= k < |c.log| ==> Faithful(c, c.log[k]))
    && c.acked <= c.pushed.Keys
    && NewestOnTop(c)
    && AllGenuine(c.pushed, c.queue)
  }

  ghost predicate Extends(before: map<(int, int), Message>, after: map<(int, int), Message>) {
    forall k :: k in before ==> k in after && after[k] == before[k]
  }

  lemma StillGenuine(p: map<(int, int), Message>, q: map<(int, int), Message>, batches: seq<Batch>)
    requires Extends(p, q) && AllGenuine(p, batches)
    ensures AllGenuine(q, batches)
  {
  }

  /** A push never reuses a (tick, index): the history only grows. */
  lemma PushStep(cfg: Config, c: Client, e: Event)
    requires Sensible(cfg) && ClientInv(cfg, c) && e.Push? && ClientEnabled(cfg, c, e)
    ensures var c' := ClientStep(cfg, c, e); ClientInv(cfg, c') && Extends(c.pushed, c'.pushed)
    ensures Timely(c, e.tick) ==> (e.tick, NextSlot(c.log, e.tick)) !in c.pushed
  {
    var c' := ClientStep(cfg, c, e);
    assert Timely(c, e.tick) ==> (e.tick, NextSlot(c.log, e.tick)) !in c.pushed;
    StillGenuine(c.pushed, c'.pushed, c.queue);
    PushKeepsOrder(c.log, cfg.sendCapacity, e.tick, e.message);
    forall k | 0 <= k < |c'.log| ensures Faithful(c', c'.log[k]) {
      if c.log != [] && e.tick <= c.log[0].tick {
        assert Faithful(c, c.log[k]);
      } else if k > 0 {
        assert Faithful(c, c.log[k - 1]);
      }
    }
  }

  lemma AcknowledgeStep(cfg: Config, c: Client, e: Event)
    requires ClientInv(cfg, c) && e.Acknowledge? && ClientEnabled(cfg, c, e)
    ensures ClientInv(cfg, ClientStep(cfg, c, e))
  {
    var c' := ClientStep(cfg, c, e);
    forall k | 0 <= k < |c'.log| ensures Faithful(c', c'.log[k]) {
      assert Faithful(c, c.log[k]);
    }
  }

  lemma BatchesGenuine(cfg: Config, c: Client, log: Log)
    requires forall k :: 0 <= k < |log| ==> Faithful(c, log[k]) && log[k].tick > c.receivable
    ensures AllGenuine(c.pushed, Batches(log))
  {
    forall i, k | 0 <= i < |log| && 0 <= k < |Unacknowledged(log[i].list, 0)|
      ensures var m := Unacknowledged(log[i].list, 0)[k];
              (log[i].tick, m.index) in c.pushed && c.pushed[(log[i].tick, m.index)] == m.message
    {
      UnacknowledgedSound(log[i].list, 0, k);
    }
  }

  lemma CollectStep(cfg: Config, c: Client, e: Event)
    requires ClientInv(cfg, c) && e.Collect? && ClientEnabled(cfg, c, e)
    ensures ClientInv(cfg, ClientStep(cfg, c, e))
  {
    var c' := ClientStep(cfg, c, e);
    DropKeepsLater(c.log, e.bound);
    forall k | 0 <= k < |c'.log| ensures Faithful(c', c'.log[k]) {
      assert Faithful(c, c.log[k]);
    }
    BatchesGenuine(cfg, c', c'.log);
  }

  lemma ClientKeeps(cfg: Config, c: Client, e: Event)
    requires Sensible(cfg) && ClientInv(cfg, c) && ClientEnabled(cfg, c, e)
    ensures var c' := ClientStep(cfg, c, e); ClientInv(cfg, c') && Extends(c.pushed, c'.pushed)
  {
    match e
    case Push(_, _) => PushStep(cfg, c, e);
    case Acknowledge(_, _) => AcknowledgeStep(cfg, c, e);
    case Collect(_, _) => CollectStep(cfg, c, e);
    case Send(_, _, _) =>
  }

  /** A message whose tick is still buffered and can reach the server, and that is not acknowledged. */
  ghost predicate Outstanding(c: Client, bound: int, tick: int, index: u8, message: Message) {
    exists s :: s in c.log && s.tick == tick > bound && index < |s.list|
                && (tick, index) !in c.acked && (tick, index) in c.pushed && message == c.pushed[(tick, index)]
  }

  ghost predicate Listed(batches: seq<Batch>, tick: int, index: u8, message: Message) {
    exists b :: b in batches && b.tick == tick && Indexed(index, message) in b.messages
  }

  lemma ListedIsOutstanding(cfg: Config, c: Client, bound: int, tick: int, index: u8, message: Message)
    requires ClientInv(cfg, c) && bound >= c.receivable
    requires Listed(Batches(DroppedThrough(c.log, bound)), tick, index, message)
    ensures Outstanding(c, bound, tick, index, message)
  {
    var kept := DroppedThrough(c.log, bound);
    DropKeepsLater(c.log, bound);
    var batches := Batches(kept);
    var b :| b in batches && b.tick == tick && Indexed(index, message) in b.messages;
    var i :| 0 <= i < |kept| && batches[i] == b;
    var k :| 0 <= k < |b.messages| && b.messages[k] == Indexed(index, message);
    assert Faithful(c, c.log[i]) && c.log[i] in c.log;
    UnacknowledgedSound(kept[i].list, 0, k);
    hide DroppedThrough, Batches;
  }

  lemma OutstandingIsListed(cfg: Config, c: Client, bound: int, tick: int, index: u8, message: Message)
    requires ClientInv(cfg, c) && bound >= c.receivable && Outstanding(c, bound, tick, index, message)
    ensures Listed(Batches(DroppedThrough(c.log, bound)), tick, index, message)
  {
    var kept := DroppedThrough(c.log, bound);
    DropKeepsLater(c.log, bound);
    var batches := Batches(kept);
    var s :| s in c.log && s.tick == tick > bound && index < |s.list|
             && (tick, index) !in c.acked && (tick, index) in c.pushed && message == c.pushed[(tick, index)];
    var i :| 0 <= i < |c.log| && c.log[i] == s;
    assert Faithful(c, s);
    var k := UnacknowledgedComplete(s.list, 0, index);
    assert batches[i].messages[k] == Indexed(index, message) && batches[i] in batches;
  }

  /**
   Resend exactness: a collect lists a message exactly when its tick is still buffered
   and later than the receivable tick, and it is not acknowledged.
   */
  lemma CollectListsUnacknowledged(cfg: Config, c: Client, bound: int, tick: int, index: u8, message: Message)
    requires ClientInv(cfg, c) && bound >= c.receivable
    ensures Listed(Batches(DroppedThrough(c.log, bound)), tick, index, message) <==> Outstanding(c, bound, tick, index, message)
  {
    hide ClientInv, Listed, Outstanding, DroppedThrough, Batches;
    if Listed(Batches(DroppedThrough(c.log, bound)), tick, index, message) {
      ListedIsOutstanding(cfg, c, bound, tick, index, message);
    }
    if Outstanding(c, bound, tick, index, message) { OutstandingIsListed(cfg, c, bound, tick, index, message); }
  }

  // ----- which ticks stay buffered -----

  ghost predicate InLog(c: Client, t: int, i: int) {
    exists k :: 0 <= k < |c.log| && c.log[k].tick == t && 0 <= i < |c.log[k].list|
  }

  /** The buffer is full of newer ticks. */
  ghost predicate Evicted(cfg: Config, c: Client, t: int) {
    |c.log| == cfg.sendCapacity && forall k :: 0 <= k < |c.log| ==> c.log[k].tick > t
  }

  ghost predicate Kept(cfg: Config, c: Client) {
    forall t, i :: (t, i) in c.pushed && t > c.receivable ==> InLog(c, t, i) || Evicted(cfg, c, t)
  }

  lemma PushKept(cfg: Config, c: Client, e: Event)
    requires Sensible(cfg) && ClientInv(cfg, c) && Kept(cfg, c) && e.Push? && ClientEnabled(cfg, c, e)
    ensures Kept(cfg, ClientStep(cfg, c, e))
  {
    var c' := ClientStep(cfg, c, e);
    var fresh' := c.log == [] || e.tick > c.log[0].tick;
    forall t, i | (t, i) in c'.pushed && t > c.receivable ensures InLog(c', t, i) || Evicted(cfg, c', t) {
      if (t, i) in c.pushed {
        if InLog(c, t, i) {
          var k :| 0 <= k < |c.log| && c.log[k].tick == t && 0 <= i < |c.log[k].list|;
          var k' := if fresh' then k + 1 else k;
          if k' < |c'.log| { assert c'.log[k'].tick == t && i < |c'.log[k'].list|; }
        }
      } else {
        assert c'.log[0].tick == t && i < |c'.log[0].list|;
      }
    }
  }

  lemma CollectKept(cfg: Config, c: Client, e: Event)
    requires ClientInv(cfg, c) && Kept(cfg, c) && e.Collect? && ClientEnabled(cfg, c, e)
    ensures Kept(cfg, ClientStep(cfg, c, e))
  {
    var c' := ClientStep(cfg, c, e);
    DropKeepsLater(c.log, e.bound);
    forall t, i | (t, i) in c.pushed && t > e.bound ensures InLog(c', t, i) || Evicted(cfg, c', t) {
      if InLog(c, t, i) {
        var k :| 0 <= k < |c.log| && c.log[k].tick == t && 0 <= i < |c.log[k].list|;
        assert k < |c'.log| && c'.log[k] == c.log[k];
      }
    }
  }

  lemma AcknowledgeKept(cfg: Config, c: Client, e: Event)
    requires Kept(cfg, c) && e.Acknowledge? && ClientEnabled(cfg, c, e)
    ensures Kept(cfg, ClientStep(cfg, c, e))
  {
    var c' := ClientStep(cfg, c, e);
    forall t, i | (t, i) in c.pushed && t > c.receivable ensures InLog(c', t, i) || Evicted(cfg, c', t) {
      if InLog(c, t, i) {
        var k :| 0 <= k < |c.log| && c.log[k].tick == t && 0 <= i < |c.log[k].list|;
        assert c'.log[k].tick == t && |c'.log[k].list| == |c.log[k].list|;
      }
    }
  }

  lemma StepKept(cfg: Config, c: Client, e: Event)
    requires Sensible(cfg) && ClientInv(cfg, c) && Kept(cfg, c) && ClientEnabled(cfg, c, e)
    ensures Kept(cfg, ClientStep(cfg, c, e))
  {
    match e
    case Push(_, _) => PushKept(cfg, c, e);
    case Acknowledge(_, _) => AcknowledgeKept(cfg, c, e);
    case Collect(_, _) => CollectKept(cfg, c, e);
    case Send(_, _, _) =>
      assert forall t, i :: InLog(c, t, i) ==> InLog(ClientStep(cfg, c, e), t, i);
  }

  function TicksOf(log: Log): set<int> {
    set k | 0 <= k < |log| :: log[k].tick
  }

  lemma {:induction false} TicksCount(log: Log)
    requires Ordered(log)
    ensures |TicksOf(log)| == |log|
  {
    if log != [] {
      var n := |log| - 1;
      TicksCount(log[..n]);
      assert TicksOf(log) == TicksOf(log[..n]) + {log[n].tick};
    }
  }

  /** The ticks with a timely push that are newer than `t` and can still reach the server. */
  ghost function NewerPushed(c: Client, t: int): set<int> {
    set p | p in c.pushed && p.0 > t && p.0 > c.receivable :: p.0
  }

  lemma {:induction false} SubsetCount(a: set<int>, b: set<int>)
    requires a <= b
    ensures |a| <= |b|
  {
    assert b == a + (b - a);
  }

  /** A pushed message is buffered exactly if fewer than `capacity` newer ticks have been pushed. */
  lemma BufferedIff(cfg: Config, c: Client, t: int, i: int)
    requires ClientInv(cfg, c) && Kept(cfg, c) && (t, i) in c.pushed && t > c.receivable
    ensures InLog(c, t, i) <==> |NewerPushed(c, t)| < cfg.sendCapacity
  {
    var newer := NewerPushed(c, t);
    if InLog(c, t, i) {
      var k :| 0 <= k < |c.log| && c.log[k].tick == t && 0 <= i < |c.log[k].list|;
      var upper := c.log[..k];
      TicksCount(upper);
      forall x | x in newer ensures x in TicksOf(upper) {
        var p :| p in c.pushed && p.0 == x;
        var j := p.1;
        assert (x, j) == p;
        assert InLog(c, x, j) || Evicted(cfg, c, x);
        var k' :| 0 <= k' < |c.log| && c.log[k'].tick == x;
        assert k' < k && upper[k'].tick == x;
      }
      SubsetCount(newer, TicksOf(upper));
    } else {
      assert Evicted(cfg, c, t);
      TicksCount(c.log);
      forall x | x in TicksOf(c.log) ensures x in newer {
        var k :| 0 <= k < |c.log| && c.log[k].tick == x;
        assert Faithful(c, c.log[k]);
        assert (x, 0) in c.pushed;
      }
      SubsetCount(TicksOf(c.log), newer);
    }
  }

  lemma NothingNewer(c: Client, tick: int)
    requires forall t, j :: (t, j) in c.pushed && t > c.receivable ==> t <= tick
    ensures NewerPushed(c, tick) == {}
  {
    forall p | p in c.pushed && p.0 > c.receivable ensures p.0 <= tick {
      var (t, j) := p;
      assert (t, j) in c.pushed;
    }
  }

  /** What counts as timely, and the index a timely push gets, in terms of the pushes before it. */
  lemma PushRecorded(cfg: Config, c: Client, tick: int, i: int)
    requires ClientInv(cfg, c) && Kept(cfg, c) && cfg.sendCapacity >= 1
    ensures Timely(c, tick) <==> tick > c.receivable && NewerPushed(c, tick) == {}
    ensures Timely(c, tick) ==> ((tick, i) in c.pushed <==> 0 <= i < NextSlot(c.log, tick))
  {
    if tick > c.receivable && c.log != [] && tick < c.log[0].tick {
      assert Faithful(c, c.log[0]) && (c.log[0].tick, 0) in c.pushed;
      assert c.log[0].tick in NewerPushed(c, tick);
    }
    if Timely(c, tick) {
      forall t, j | (t, j) in c.pushed && t > c.receivable ensures t <= tick {
        assert NewestOnTop(c);
      }
      NothingNewer(c, tick);
      if c.log != [] && c.log[0].tick == tick { assert Faithful(c, c.log[0]); }
    }
  }

  // ----- what every state satisfies: the server -----

  ghost predicate Authentic(pushed: map<(int, int), Message>, host: int, a: Arrival) {
    (Logical(host, a.tick), a.index) in pushed && pushed[(Logical(host, a.tick), a.index)] == a.message
  }

  ghost predicate Within(pending: Pending, history: map<(int, int), Message>) {
    forall t, i, m :: Holds(pending, t, i, m) ==> Maps(history, t, i, m)
  }

  ghost predicate Grows(before: Pending, after: Pending, host: int, capacity: u16) {
    && (forall t, i, m :: Holds(before, t, i, m) ==> Holds(after, t, i, m))
    && (forall t :: t in after ==> t in before || host < t < host + capacity)
  }

  lemma InsertKeeps(pushed: map<(int, int), Message>, pending: Pending, host: int, capacity: u16, a: Arrival)
    requires Authentic(pushed, host, a) && Within(pending, pushed)
    ensures var next := Inserted(pending, host, capacity, Logical(host, a.tick), a.index, a.message);
            Grows(pending, next, host, capacity) && Within(next, pushed)
  {
  }

  /** Arrivals only add messages, only for ticks within reach, and never replace one already waiting. */
  lemma {:induction false} ArriveKeeps(pushed: map<(int, int), Message>, pending: Pending, host: int, capacity: u16, arrivals: seq<Arrival>)
    requires forall k :: 0 <= k < |arrivals| ==> Authentic(pushed, host, arrivals[k])
    requires Within(pending, pushed)
    ensures var after := ArriveAll(pending, host, capacity, arrivals);
            Grows(pending, after, host, capacity) && Within(after, pushed)
    decreases |arrivals|
  {
    hide Authentic, Inserted, Holds, Maps;
    if arrivals != [] {
      var a := arrivals[0];
      var next := Inserted(pending, host, capacity, Logical(host, a.tick), a.index, a.message);
      InsertKeeps(pushed, pending, host, capacity, a);
      ArriveKeeps(pushed, next, host, capacity, arrivals[1..]);
    }
  }

  /** One of the arrivals is this message, and its tick is within reach. */
  ghost predicate Brings(arrivals: seq<Arrival>, host: int, capacity: u16, t: int, i: int, m: Message) {
    && host < t < host + capacity
    && exists k :: 0 <= k < |arrivals| && Logical(host, arrivals[k].tick) == t && arrivals[k].index == i && arrivals[k].message == m
  }

  lemma BringsMore(arrivals: seq<Arrival>, host: int, capacity: u16, t: int, i: int, m: Message)
    requires arrivals != []
    ensures var a := arrivals[0];
            Brings(arrivals, host, capacity, t, i, m) <==>
            || (host < t < host + capacity && Logical(host, a.tick) == t && a.index == i && a.message == m)
            || Brings(arrivals[1..], host, capacity, t, i, m)
  {
    hide Logical;
    if Brings(arrivals, host, capacity, t, i, m) {
      var k :| 0 <= k < |arrivals| && Logical(host, arrivals[k].tick) == t && arrivals[k].index == i && arrivals[k].message == m;
      if k > 0 { assert arrivals[1..][k - 1] == arrivals[k]; }
    }
    if Brings(arrivals[1..], host, capacity, t, i, m) {
      var k :| 0 <= k < |arrivals| - 1 && Logical(host, arrivals[1..][k].tick) == t && arrivals[1..][k].index == i && arrivals[1..][k].message == m;
      assert arrivals[k + 1] == arrivals[1..][k];
    }
  }

  lemma ArrivesOne(pushed: map<(int, int), Message>, pending: Pending, host: int, capacity: u16, a: Arrival, t: int, i: int, m: Message)
    requires Authentic(pushed, host, a) && Within(pending, pushed)
    ensures var tick := Logical(host, a.tick);
            var next := Inserted(pending, host, capacity, tick, a.index, a.message);
            var here := tick == t && a.index == i;
            && (Holds(next, t, i, m) <==> Holds(pending, t, i, m) || (here && a.message == m && host < t < host + capacity))
            && (IsPending(next, t, i) <==> IsPending(pending, t, i) || (here && host < t < host + capacity))
            && (here ==> (Accepts(pending, host, capacity, tick, a.index) <==> !IsPending(pending, t, i) && host < t < host + capacity))
  {
    hide Logical;
    InsertedExact(pending, host, capacity, Logical(host, a.tick), a.index, a.message, t, i);
    if IsPending(pending, t, i) { assert Holds(pending, t, i, pending[t][i]); }
    hide Inserted;
  }

  /** Afterwards exactly what waited before and what was brought waits; what was answered with true is what is new. */
  lemma {:induction false} ArrivedExactly(pushed: map<(int, int), Message>, pending: Pending, host: int, capacity: u16,
                                          arrivals: seq<Arrival>, t: int, i: int, m: Message)
    requires forall k :: 0 <= k < |arrivals| ==> Authentic(pushed, host, arrivals[k])
    requires Within(pending, pushed)
    ensures var brought := Brings(arrivals, host, capacity, t, i, m);
            && (Holds(ArriveAll(pending, host, capacity, arrivals), t, i, m) <==> Holds(pending, t, i, m) || brought)
            && (Maps(AcceptedFrom(pending, host, capacity, arrivals), t, i, m) <==> brought && !IsPending(pending, t, i))
    decreases |arrivals|
  {
    if arrivals != [] {
      var a := arrivals[0];
      var tick := Logical(host, a.tick);
      var next := Inserted(pending, host, capacity, tick, a.index, a.message);
      InsertKeeps(pushed, pending, host, capacity, a);
      BringsMore(arrivals, host, capacity, t, i, m);
      ArrivesOne(pushed, pending, host, capacity, a, t, i, m);
      hide Inserted, Logical, Accepts, Brings, Holds, IsPending;
      ArrivedExactly(pushed, next, host, capacity, arrivals[1..], t, i, m);
    }
  }

  /** What the server reads from a packet is what the client put into it. */
  lemma PacketReadBack(cfg: Config, p: Packet)
    requires Sensible(cfg)
    ensures Arrivals(cfg, p) == AllArrivals(GroupsOf(p.batches))
  {
    ReadBack(cfg.codec, Wrap(p.tick), GroupsOf(p.batches), []);
  }

  lemma {:induction false} BatchAuthentic(pushed: map<(int, int), Message>, host: int, tick: int, messages: seq<Indexed>)
    requires Genuine(pushed, Batch(tick, messages)) && -HALF < tick - host <= HALF
    ensures forall k :: 0 <= k < |ArrivalsOf(Wrap(tick), messages)| ==>
              Authentic(pushed, host, ArrivalsOf(Wrap(tick), messages)[k])
    decreases |messages|
  {
    LogicalOf(host, tick);
    if messages != [] {
      var b := Batch(tick, messages);
      assert b.messages[0] == messages[0];
      assert Genuine(pushed, Batch(tick, messages[1..])) by {
        assert forall k :: 0 <= k < |messages| - 1 ==> messages[1..][k] == b.messages[k + 1];
      }
      BatchAuthentic(pushed, host, tick, messages[1..]);
    }
  }

  lemma {:induction false} ArrivalsAuthentic(pushed: map<(int, int), Message>, host: int, batches: seq<Batch>)
    requires AllGenuine(pushed, batches)
    requires forall i :: 0 <= i < |batches| ==> -HALF < batches[i].tick - host <= HALF
    ensures forall k :: 0 <= k < |AllArrivals(GroupsOf(batches))| ==>
              Authentic(pushed, host, AllArrivals(GroupsOf(batches))[k])
    decreases |batches|
  {
    if batches != [] {
      var b := batches[0];
      assert GroupsOf(batches)[1..] == GroupsOf(batches[1..]);
      assert Batch(b.tick, b.messages) == b;
      BatchAuthentic(pushed, host, b.tick, b.messages);
      ArrivalsAuthentic(pushed, host, batches[1..]);
    }
  }

  /** Every accepted message is still waiting, or its tick has passed and, if collected at all, brought it. */
  ghost predicate Accounted(s: Server, t: int, i: int) {
    (t, i) in s.accepted ==>
      var m := s.accepted[(t, i)];
      if t > s.taken then Holds(s.pending, t, i, m)
      else
        && (t in s.takenAt ==> Delivery(t, i, m, t) in s.delivered)
        && (t == s.taken ==> t in s.takenAt)
  }

  ghost predicate DeliveredRight(s: Server, d: Delivery) {
    d.at == d.tick <= s.taken && Maps(s.accepted, d.tick, d.index, d.message)
  }

  ghost predicate NoRepeats(deliveries: seq<Delivery>) {
    forall j, k :: 0 <= j < k < |deliveries| ==>
      deliveries[j].tick != deliveries[k].tick || deliveries[j].index != deliveries[k].index
  }

  ghost predicate ServerInv(cfg: Config, pushed: map<(int, int), Message>, s: Server) {
    && s.taken <= s.host && s.host + cfg.receiveCapacity <= s.taken + HALF
    && (forall t :: t in s.pending ==> s.taken < t < s.host + cfg.receiveCapacity)
    && (forall t :: t in s.takenAt ==> t <= s.taken)
    && Extends(s.accepted, pushed) && Within(s.pending, s.accepted)
    && (forall t, i :: Accounted(s, t, i))
    && (forall k :: 0 <= k < |s.delivered| ==> DeliveredRight(s, s.delivered[k]))
    && NoRepeats(s.delivered)
  }

  ghost predicate Progress(s: Server, s': Server) {
    Extends(s.accepted, s'.accepted) && s.delivered <= s'.delivered && s.taken <= s'.taken
  }

  lemma ArriveStep(cfg: Config, pushed: map<(int, int), Message>, network: set<Packet>, s: Server, e: Event)
    requires Sensible(cfg) && ServerInv(cfg, pushed, s) && e.Arrive? && ServerEnabled(cfg, network, s, e)
    requires AllGenuine(pushed, e.packet.batches)
    ensures var s' := ServerStep(cfg, network, s, e); ServerInv(cfg, pushed, s') && Progress(s, s')
  {
    hide ArriveAll, AcceptedFrom, Arrivals, PayloadCodec.Consuming, PayloadCodec.Faithful, Brings, IsPending;
    var arrivals := Arrivals(cfg, e.packet);
    PacketReadBack(cfg, e.packet);
    ArrivalsAuthentic(pushed, s.host, e.packet.batches);
    ArriveKeeps(pushed, s.pending, s.host, cfg.receiveCapacity, arrivals);
    var pending := ArriveAll(s.pending, s.host, cfg.receiveCapacity, arrivals);
    var accepted := AcceptedFrom(s.pending, s.host, cfg.receiveCapacity, arrivals);
    forall t, i, m
      ensures Maps(accepted, t, i, m) ==> Holds(pending, t, i, m)
      ensures Holds(pending, t, i, m) ==> Holds(s.pending, t, i, m) || Maps(accepted, t, i, m)
    {
      ArrivedExactly(pushed, s.pending, s.host, cfg.receiveCapacity, arrivals, t, i, m);
      StaysPending(s.pending, pending, s.host, cfg.receiveCapacity, t, i, m);
    }
    AcceptStep(cfg, pushed, s, pending, accepted);
  }

  /** What waits under an index keeps its message. */
  lemma StaysPending(pending: Pending, after: Pending, host: int, capacity: u16, t: int, i: int, m: Message)
    requires Grows(pending, after, host, capacity)
    ensures Holds(after, t, i, m) && IsPending(pending, t, i) ==> Holds(pending, t, i, m)
  {
    if IsPending(pending, t, i) { assert Holds(pending, t, i, pending[t][i]); }
  }

  lemma AcceptStep(cfg: Config, pushed: map<(int, int), Message>, s: Server, pending: Pending, accepted: map<(int, int), Message>)
    requires ServerInv(cfg, pushed, s)
    requires Grows(s.pending, pending, s.host, cfg.receiveCapacity) && Within(pending, pushed)
    requires forall t, i, m :: Maps(accepted, t, i, m) ==> Holds(pending, t, i, m)
    requires forall t, i, m :: Holds(pending, t, i, m) ==> Holds(s.pending, t, i, m) || Maps(accepted, t, i, m)
    ensures var s' := s.(pending := pending, accepted := s.accepted + accepted);
            ServerInv(cfg, pushed, s') && Progress(s, s')
  {
    var s' := s.(pending := pending, accepted := s.accepted + accepted);
    forall k | k in accepted ensures Holds(pending, k.0, k.1, accepted[k]) {
      assert Maps(accepted, k.0, k.1, accepted[k]);
    }
    forall k | k in s.accepted ensures k in s'.accepted && s'.accepted[k] == s.accepted[k] {
      assert Accounted(s, k.0, k.1);
    }
    forall t, i, m | Holds(pending, t, i, m) ensures Maps(s'.accepted, t, i, m) {
      if Holds(s.pending, t, i, m) { assert Maps(s.accepted, t, i, m); }
    }
    forall t, i ensures Accounted(s', t, i) {
      assert Accounted(s, t, i);
    }
    forall k | 0 <= k < |s.delivered| ensures DeliveredRight(s', s.delivered[k]) {
      assert DeliveredRight(s, s.delivered[k]);
    }
  }

  lemma TakeStep(cfg: Config, pushed: map<(int, int), Message>, network: set<Packet>, s: Server, e: Event)
    requires Sensible(cfg) && ServerInv(cfg, pushed, s) && e.Take? && ServerEnabled(cfg, network, s, e)
    ensures var s' := ServerStep(cfg, network, s, e); ServerInv(cfg, pushed, s') && Progress(s, s')
  {
    hide PayloadCodec.Consuming, PayloadCodec.Faithful;
    var s' := ServerStep(cfg, network, s, e);
    var due := Due(s.pending, e.at);
    var new' := Deliveries(due, e.order, e.at);
    forall k | 0 <= k < |new'| ensures DeliveredRight(s', new'[k]) && e.at > s.taken {
      assert Holds(s.pending, e.at, e.order[k], due[e.order[k]]);
    }
    forall t, i, m | Holds(s'.pending, t, i, m) ensures Maps(s'.accepted, t, i, m) {
      assert Holds(s.pending, t, i, m);
    }
    forall t, i ensures Accounted(s', t, i) {
      assert Accounted(s, t, i);
      if (t, i) in s.accepted && t == e.at > s.taken {
        var k :| 0 <= k < |e.order| && e.order[k] == i;
        assert new'[k] == Delivery(t, i, s.accepted[(t, i)], t);
        assert s'.delivered[|s.delivered| + k] == new'[k];
      }
    }
  }

  lemma ServerKeeps(cfg: Config, pushed: map<(int, int), Message>, network: set<Packet>, s: Server, e: Event)
    requires Sensible(cfg) && ServerInv(cfg, pushed, s) && ServerEnabled(cfg, network, s, e)
    requires forall p :: p in network ==> AllGenuine(pushed, p.batches)
    ensures var s' := ServerStep(cfg, network, s, e); ServerInv(cfg, pushed, s') && Progress(s, s')
  {
    match e
    case Arrive(_) => ArriveStep(cfg, pushed, network, s, e);
    case Take(_, _) => TakeStep(cfg, pushed, network, s, e);
    case Advance(_) =>
      var s' := ServerStep(cfg, network, s, e);
      forall t, i ensures Accounted(s', t, i) { assert Accounted(s, t, i); }
      forall k | 0 <= k < |s.delivered| ensures DeliveredRight(s', s.delivered[k]) {
        assert DeliveredRight(s, s.delivered[k]);
      }
  }

  // ----- every run -----

  ghost predicate Inv(cfg: Config, s: System) {
    && ClientInv(cfg, s.client)
    && (forall p :: p in s.network ==> AllGenuine(s.client.pushed, p.batches))
    && ServerInv(cfg, s.client.pushed, s.server)
  }

  lemma ServerInvExtends(cfg: Config, p: map<(int, int), Message>, q: map<(int, int), Message>, s: Server)
    requires ServerInv(cfg, p, s) && Extends(p, q)
    ensures ServerInv(cfg, q, s)
  {
  }

  lemma StepKeeps(cfg: Config, s: System, e: Event)
    requires Sensible(cfg) && Inv(cfg, s)
    ensures Inv(cfg, Step(cfg, s, e))
    ensures Extends(s.client.pushed, Step(cfg, s, e).client.pushed) && Progress(s.server, Step(cfg, s, e).server)
  {
    hide ClientInv, ServerInv, Genuine, PayloadCodec.Consuming, PayloadCodec.Faithful, ServerEnabled, ServerStep;
    var s' := Step(cfg, s, e);
    if ClientEnabled(cfg, s.client, e) {
      ClientKeeps(cfg, s.client, e);
      ServerInvExtends(cfg, s.client.pushed, s'.client.pushed, s.server);
      QueueGenuine(cfg, s.client);
      forall p | p in s'.network ensures AllGenuine(s'.client.pushed, p.batches) {
        if p in s.network { StillGenuine(s.client.pushed, s'.client.pushed, p.batches); }
      }
    } else if ServerEnabled(cfg, s.network, s.server, e) {
      ServerKeeps(cfg, s.client.pushed, s.network, s.server, e);
    }
  }

  lemma QueueGenuine(cfg: Config, c: Client)
    requires ClientInv(cfg, c)
    ensures AllGenuine(c.pushed, c.queue)
  {
  }

  lemma {:induction false} RunKeeps(cfg: Config, start: System, events: seq<Event>)
    requires Sensible(cfg) && Start(start)
    ensures Inv(cfg, Run(cfg, start, events))
  {
    if events == [] {
      assert forall t, i :: Accounted(start.server, t, i);
    } else {
      RunKeeps(cfg, start, events[..|events| - 1]);
      StepKeeps(cfg, Run(cfg, start, events[..|events| - 1]), events[|events| - 1]);
    }
  }

  /**
   The channel's promise, over every run: whatever the server delivers was pushed by
   the client for exactly the tick at which it is delivered, with that payload, and
   no (tick, index) is delivered twice.
   */
  lemma DeliveredOnceAtItsTick(cfg: Config, start: System, events: seq<Event>)
    requires Sensible(cfg) && Start(start)
    ensures var s := Run(cfg, start, events);
            && (forall k :: 0 <= k < |s.server.delivered| ==>
                  var d := s.server.delivered[k];
                  d.at == d.tick && Maps(s.client.pushed, d.tick, d.index, d.message))
            && NoRepeats(s.server.delivered)
  {
    hide Run;
    RunKeeps(cfg, start, events);
    var s := Run(cfg, start, events);
    forall k | 0 <= k < |s.server.delivered|
      ensures var d := s.server.delivered[k]; d.at == d.tick && Maps(s.client.pushed, d.tick, d.index, d.message)
    {
      assert DeliveredRight(s.server, s.server.delivered[k]);
    }
  }

  /** Nothing accepted is lost: once the server has collected at a tick, all it ever accepted for it is delivered. */
  lemma AcceptedIsDelivered(cfg: Config, start: System, events: seq<Event>, t: int, i: int)
    requires Sensible(cfg) && Start(start)
    requires var s := Run(cfg, start, events).server; (t, i) in s.accepted && t in s.takenAt
    ensures var s := Run(cfg, start, events).server; Delivery(t, i, s.accepted[(t, i)], t) in s.delivered
  {
    RunKeeps(cfg, start, events);
    assert Accounted(Run(cfg, start, events).server, t, i);
  }

  lemma {:induction false} RunKept(cfg: Config, start: System, events: seq<Event>)
    requires Sensible(cfg) && Start(start)
    ensures Kept(cfg, Run(cfg, start, events).client)
  {
    if events != [] {
      var n := |events| - 1;
      RunKept(cfg, start, events[..n]);
      RunKeeps(cfg, start, events[..n]);
      var s := Run(cfg, start, events[..n]);
      hide ClientInv, Kept, ServerInv, PayloadCodec.Consuming, PayloadCodec.Faithful, ClientEnabled, ClientStep, Start;
      if ClientEnabled(cfg, s.client, events[n]) { StepKept(cfg, s.client, events[n]); }
    }
  }

  /**
   Every run: a collect lists a message exactly if it was pushed in time for its tick, is not acknowledged, its tick is
   past the receivable one, and fewer than `capacity` newer ticks have been pushed.
   */
  lemma CollectsExactly(cfg: Config, start: System, events: seq<Event>, bound: int, t: int, i: u8, m: Message)
    requires Sensible(cfg) && Start(start) && bound >= Run(cfg, start, events).client.receivable
    ensures var c := Run(cfg, start, events).client;
            Listed(Batches(DroppedThrough(c.log, bound)), t, i, m) <==>
            Maps(c.pushed, t, i, m) && (t, i as int) !in c.acked && t > bound && |NewerPushed(c, t)| < cfg.sendCapacity
  {
    hide Run, Start, Listed, Batches, DroppedThrough;
    RunKeeps(cfg, start, events);
    RunKept(cfg, start, events);
    var c := Run(cfg, start, events).client;
    CollectListsUnacknowledged(cfg, c, bound, t, i, m);
    if Maps(c.pushed, t, i, m) && t > bound { BufferedIff(cfg, c, t, i); }
    hide NewerPushed, Kept;
    SlotInLog(cfg, c, bound, t, i, m);
  }

  lemma SlotInLog(cfg: Config, c: Client, bound: int, t: int, i: u8, m: Message)
    requires bound >= c.receivable
    ensures Outstanding(c, bound, t, i, m) <==> InLog(c, t, i) && Maps(c.pushed, t, i, m) && (t, i as int) !in c.acked && t > bound
  {
    if InLog(c, t, i) {
      var k :| 0 <= k < |c.log| && c.log[k].tick == t && 0 <= i < |c.log[k].list|;
      assert c.log[k] in c.log;
    }
  }

  // ----- exactly what is delivered -----

  lemma {:induction false} ArrivalsOfOne(tick: u16, messages: seq<Indexed>, a: Arrival)
    ensures a in ArrivalsOf(tick, messages) <==> a.tick == tick && Indexed(a.index, a.message) in messages
    decreases |messages|
  {
    if messages != [] {
      ArrivalsOfOne(tick, messages[1..], a);
      assert messages == [messages[0]] + messages[1..];
    }
  }

  ghost predicate Carries(batches: seq<Batch>, a: Arrival) {
    exists b :: b in batches && Wrap(b.tick) == a.tick && Indexed(a.index, a.message) in b.messages
  }

  lemma {:induction false} ArrivalsOfAll(batches: seq<Batch>, a: Arrival)
    ensures a in AllArrivals(GroupsOf(batches)) <==> Carries(batches, a)
    decreases |batches|
  {
    if batches != [] {
      hide Wrap;
      var b, rest := batches[0], batches[1..];
      assert GroupsOf(batches)[1..] == GroupsOf(rest);
      assert batches == [b] + rest;
      ArrivalsOfOne(Wrap(b.tick), b.messages, a);
      ArrivalsOfAll(rest, a);
    }
  }

  /** A packet brings exactly what is listed in it and within reach. */
  lemma PacketBrings(cfg: Config, p: Packet, host: int, t: int, i: u8, m: Message)
    requires Sensible(cfg) && forall k :: 0 <= k < |p.batches| ==> -HALF < p.batches[k].tick - host <= HALF
    ensures Brings(Arrivals(cfg, p), host, cfg.receiveCapacity, t, i, m) <==>
            host < t < host + cfg.receiveCapacity && Listed(p.batches, t, i, m)
  {
    hide PayloadCodec.Consuming, PayloadCodec.Faithful, Arrivals;
    var arrivals := Arrivals(cfg, p);
    PacketReadBack(cfg, p);
    if Brings(arrivals, host, cfg.receiveCapacity, t, i, m) {
      var k :| 0 <= k < |arrivals| && Logical(host, arrivals[k].tick) == t && arrivals[k].index == i && arrivals[k].message == m;
      ArrivalsOfAll(p.batches, arrivals[k]);
      var b :| b in p.batches && Wrap(b.tick) == arrivals[k].tick && Indexed(i, m) in b.messages;
      LogicalOf(host, b.tick);
    }
    if Listed(p.batches, t, i, m) {
      var b :| b in p.batches && b.tick == t && Indexed(i, m) in b.messages;
      LogicalOf(host, t);
      var a := Arrival(Wrap(t), i, m);
      assert Carries(p.batches, a);
      ArrivalsOfAll(p.batches, a);
      var k :| 0 <= k < |arrivals| && arrivals[k] == a;
      hide Logical, Wrap;
    }
  }

  /** A packet with this message arrives while the message's tick is still to come and within reach. */
  ghost predicate InTime(cfg: Config, s: System, e: Event, t: int, i: u8, m: Message) {
    && e.Arrive? && ServerEnabled(cfg, s.network, s.server, e)
    && Listed(e.packet.batches, t, i, m) && s.server.host < t < s.server.host + cfg.receiveCapacity
  }

  lemma AcceptedMore(cfg: Config, s: System, e: Event, t: int, i: u8, m: Message)
    requires Sensible(cfg) && Inv(cfg, s)
    ensures Maps(Step(cfg, s, e).server.accepted, t, i, m) <==> Maps(s.server.accepted, t, i, m) || InTime(cfg, s, e, t, i, m)
  {
    StepKeeps(cfg, s, e);
    if e.Arrive? && ServerEnabled(cfg, s.network, s.server, e) {
      var x, arrivals := s.server, Arrivals(cfg, e.packet);
      hide ArriveAll, AcceptedFrom, Arrivals, PayloadCodec.Consuming, PayloadCodec.Faithful, Brings, Listed;
      PacketReadBack(cfg, e.packet);
      ArrivalsAuthentic(s.client.pushed, x.host, e.packet.batches);
      WithinPushed(cfg, s);
      hide Inv;
      ArrivedExactly(s.client.pushed, x.pending, x.host, cfg.receiveCapacity, arrivals, t, i, m);
      PacketBrings(cfg, e.packet, x.host, t, i, m);
    }
  }

  lemma WithinPushed(cfg: Config, s: System)
    requires Inv(cfg, s)
    ensures Within(s.server.pending, s.client.pushed)
    ensures forall t, i :: IsPending(s.server.pending, t, i) ==> Maps(s.server.accepted, t, i, s.server.pending[t][i])
  {
    var p := s.server.pending;
    forall t, i, m | Holds(p, t, i, m) ensures Maps(s.client.pushed, t, i, m) {
      assert Maps(s.server.accepted, t, i, m);
    }
    forall t, i | IsPending(p, t, i) ensures Maps(s.server.accepted, t, i, p[t][i]) {
      assert Holds(p, t, i, p[t][i]);
    }
  }

  ghost predicate CameInTime(cfg: Config, start: System, events: seq<Event>, t: int, i: u8, m: Message)
    requires cfg.codec.Consuming()
  {
    exists n :: 0 <= n < |events| && InTime(cfg, Run(cfg, start, events[..n]), events[n], t, i, m)
  }

  lemma CameMore(cfg: Config, start: System, events: seq<Event>, t: int, i: u8, m: Message)
    requires cfg.codec.Consuming() && events != []
    ensures var n := |events| - 1;
            CameInTime(cfg, start, events, t, i, m) <==>
            CameInTime(cfg, start, events[..n], t, i, m) || InTime(cfg, Run(cfg, start, events[..n]), events[n], t, i, m)
  {
    hide InTime, Run;
    var n := |events| - 1;
    var before := events[..n];
    assert forall k :: 0 <= k < n ==> before[..k] == events[..k] && before[k] == events[k];
  }

  lemma {:induction false} AcceptedIff(cfg: Config, start: System, events: seq<Event>, t: int, i: u8, m: Message)
    requires Sensible(cfg) && Start(start)
    ensures Maps(Run(cfg, start, events).server.accepted, t, i, m) <==> CameInTime(cfg, start, events, t, i, m)
  {
    if events != [] {
      hide Step, InTime, CameInTime, Inv, Start, PayloadCodec.Consuming, PayloadCodec.Faithful;
      var n := |events| - 1;
      AcceptedIff(cfg, start, events[..n], t, i, m);
      RunKeeps(cfg, start, events[..n]);
      AcceptedMore(cfg, Run(cfg, start, events[..n]), events[n], t, i, m);
      CameMore(cfg, start, events, t, i, m);
    }
  }

  /**
   Every run: once the server has collected at a tick, a message was delivered for it exactly if some packet that
   listed it arrived while that tick was still to come and within reach.
   */
  lemma DeliveredIff(cfg: Config, start: System, events: seq<Event>, t: int, i: u8, m: Message)
    requires Sensible(cfg) && Start(start) && t in Run(cfg, start, events).server.takenAt
    ensures Delivery(t, i, m, t) in Run(cfg, start, events).server.delivered <==> CameInTime(cfg, start, events, t, i, m)
  {
    hide Run, CameInTime;
    RunKeeps(cfg, start, events);
    AcceptedIff(cfg, start, events, t, i, m);
    var x := Run(cfg, start, events).server;
    if Delivery(t, i, m, t) in x.delivered {
      var k :| 0 <= k < |x.delivered| && x.delivered[k] == Delivery(t, i, m, t);
      assert DeliveredRight(x, x.delivered[k]);
    }
    if Maps(x.accepted, t, i, m) { AcceptedIsDelivered(cfg, start, events, t, i); }
  }

  /** A message acknowledged at some point of a run is listed by no collect from then on. */
  lemma AcknowledgedIsNeverCollected(cfg: Config, start: System, events: seq<Event>, bound: int, tick: int, index: u8, message: Message)
    requires Sensible(cfg) && Start(start)
    requires var c := Run(cfg, start, events).client; (tick, index) in c.acked && bound >= c.receivable
    ensures var c := Run(cfg, start, events).client;
            !Listed(Batches(DroppedThrough(c.log, bound)), tick, index, message)
  {
    hide Run;
    RunKeeps(cfg, start, events);
    CollectListsUnacknowledged(cfg, Run(cfg, start, events).client, bound, tick, index, message);
  }

  // ----- the steps are those of the objects -----

  /** The queue the sender object fills holds the wrapped form of the batches collected here. */
  lemma CollectedGroups(log: Log, sending: int)
    ensures GroupsOf(if log != [] && log[0].tick > sending then [] else Batches(log)) == Collected(log, sending)
  {
    GroupsOfBatches(log);
  }

  lemma {:induction false} GroupsOfBatches(log: Log)
    ensures GroupsOf(Batches(log)) == TickBufferSender.Groups(log)
  {
    if log != [] {
      assert Batches(log)[1..] == Batches(log[1..]);
      GroupsOfBatches(log[1..]);
      assert TickBufferSender.Groups(log)[1..] == TickBufferSender.Groups(log[1..]);
    }
  }

  /** In every run the receiver object may insert and collect: all it holds is comparable, and it stays small. */
  lemma ReceiverPreconditionsHold(cfg: Config, start: System, events: seq<Event>, buffer: seq<TickBufferReceiver.Slot>, ticks: seq<int>)
    requires Sensible(cfg) && Start(start)
    requires Represents(buffer, ticks, Run(cfg, start, events).server.pending) && Rising(ticks)
    ensures var s := Run(cfg, start, events).server;
            && (forall t :: t in ticks ==> s.host + cfg.receiveCapacity - HALF <= t < s.host + HALF)
            && (forall t :: t in ticks ==> t - s.taken < HALF && s.host - t < HALF)
            && (s.taken == s.host && cfg.receiveCapacity > 0 ==> |buffer| <= cfg.receiveCapacity - 1)
  {
    RunKeeps(cfg, start, events);
    var s := Run(cfg, start, events).server;
    if s.taken == s.host { BufferBound(buffer, ticks, s.pending, s.host, cfg.receiveCapacity); }
    forall t | t in ticks ensures t in s.pending {
      var i :| 0 <= i < |ticks| && ticks[i] == t;
    }
  }

  // ----- collecting while groups are left over -----

  /** Batches from the newest tick down, close enough to be told apart. */
  ghost predicate Descending(batches: seq<Batch>) {
    forall i, j :: 0 <= i < j < |batches| ==> 0 < batches[i].tick - batches[j].tick < HALF
  }

  /** Every collect of the run found an empty queue. */
  ghost predicate Orderly(cfg: Config, start: System, events: seq<Event>)
    requires cfg.codec.Consuming()
  {
    forall n :: 0 <= n < |events| && events[n].Collect? ==> Run(cfg, start, events[..n]).client.queue == []
  }

  lemma {:induction false} OrderlyDescends(cfg: Config, start: System, events: seq<Event>)
    requires Sensible(cfg) && Start(start) && Orderly(cfg, start, events)
    ensures Descending(Run(cfg, start, events).client.queue)
  {
    if events != [] {
      var n := |events| - 1;
      var before := events[..n];
      assert forall k :: 0 <= k < n ==> before[..k] == events[..k];
      OrderlyDescends(cfg, start, before);
      RunKeeps(cfg, start, before);
      var s := Run(cfg, start, before);
      if ClientEnabled(cfg, s.client, events[n]) { StepDescends(cfg, s.client, events[n]); }
    }
  }

  lemma StepDescends(cfg: Config, c: Client, e: Event)
    requires ClientInv(cfg, c) && ClientEnabled(cfg, c, e) && Descending(c.queue) && (e.Collect? ==> c.queue == [])
    ensures Descending(ClientStep(cfg, c, e).queue)
  {
    if e.Collect? {
      DropKeepsLater(c.log, e.bound);
    }
  }

  lemma {:induction false} DescendingChains(host: int, batches: seq<Batch>)
    requires Descending(batches)
    requires batches != [] ==> 0 <= host - batches[0].tick < HALF
    ensures Chain(Wrap(host), GroupsOf(batches))
    ensures batches != [] ==> LastTick(Wrap(host), GroupsOf(batches)) == Wrap(batches[|batches| - 1].tick)
    decreases |batches|
  {
    if batches != [] {
      var rest := batches[1..];
      WindowDiff(batches[0].tick, host);
      assert rest != [] ==> rest[0] == batches[1] && 0 < batches[0].tick - batches[1].tick < HALF;
      DescendingChains(batches[0].tick, rest);
      assert GroupsOf(batches)[1..] == GroupsOf(rest);
      GroupsLength(rest);
    }
  }

  lemma {:induction false} GroupsConcat(a: seq<Batch>, b: seq<Batch>)
    ensures GroupsOf(a + b) == GroupsOf(a) + GroupsOf(b)
    decreases |a|
  {
    if a == [] {
      assert a + b == b;
    } else {
      assert (a + b)[1..] == a[1..] + b;
      GroupsConcat(a[1..], b);
    }
  }

  /**
   After collects from an empty queue and packets that left groups over, one more collect makes the next
   roomy write panic if and only if it lists a tick newer than the oldest group left over.
   */
  lemma SecondCollectPanicsIff(cfg: Config, start: System, events: seq<Event>, sending: int, bound: int,
                               host: int, free: nat, hasWritten: bool)
    requires Sensible(cfg) && Start(start) && Orderly(cfg, start, events)
    requires var c := Run(cfg, start, events).client;
             && c.queue != [] && ClientEnabled(cfg, c, Collect(sending, bound))
             && 0 <= host - c.queue[0].tick < HALF && Near(c.log, c.queue[|c.queue| - 1].tick)
             && |QueueBits(cfg.codec, Wrap(host), GroupsOf(ClientStep(cfg, c, Collect(sending, bound)).queue))| <= free
    ensures var c := Run(cfg, start, events).client;
            var c' := ClientStep(cfg, c, Collect(sending, bound));
            Pack(cfg.codec, GroupsOf(c'.queue), free, Wrap(host), hasWritten).outcome == NegativeDiff
            <==> c'.log != [] && c.queue[|c.queue| - 1].tick < c'.log[0].tick <= sending
  {
    hide Run, PayloadCodec.Consuming, PayloadCodec.Faithful;
    RunKeeps(cfg, start, events);
    OrderlyDescends(cfg, start, events);
    var c := Run(cfg, start, events).client;
    CollectedAgain(cfg, c, sending, bound, host);
    var c' := ClientStep(cfg, c, Collect(sending, bound));
    RoomyPanicIff(cfg.codec, GroupsOf(c'.queue), free, Wrap(host), hasWritten);
  }

  lemma CollectedAgain(cfg: Config, c: Client, sending: int, bound: int, host: int)
    requires ClientInv(cfg, c) && ClientEnabled(cfg, c, Collect(sending, bound)) && Descending(c.queue) && c.queue != []
    requires 0 <= host - c.queue[0].tick < HALF && Near(c.log, c.queue[|c.queue| - 1].tick)
    ensures var c' := ClientStep(cfg, c, Collect(sending, bound));
            Chain(Wrap(host), GroupsOf(c'.queue)) <==>
            !(c'.log != [] && c.queue[|c.queue| - 1].tick < c'.log[0].tick <= sending)
  {
    var kept := DroppedThrough(c.log, bound);
    var oldest := c.queue[|c.queue| - 1].tick;
    DropKeepsLater(c.log, bound);
    DescendingChains(host, c.queue);
    GroupsLength(c.queue);
    GroupsConcat(c.queue, if kept != [] && kept[0].tick > sending then [] else Batches(kept));
    CollectedGroups(kept, sending);
    if kept != [] && kept[0].tick <= sending {
      CarryOverIff(Wrap(host), GroupsOf(c.queue), oldest, kept, sending);
    } else {
      assert Collected(kept, sending) == [];
      assert GroupsOf(c.queue) + [] == GroupsOf(c.queue);
    }
  }

  lemma RunNext(cfg: Config, start: System, events: seq<Event>, e: Event)
    requires cfg.codec.Consuming()
    ensures Run(cfg, start, events + [e]) == Step(cfg, Run(cfg, start, events), e)
    ensures Orderly(cfg, start, events) && (e.Collect? ==> Run(cfg, start, events).client.queue == []) ==>
              Orderly(cfg, start, events + [e])
  {
    var all := events + [e];
    assert all[..|events|] == events;
    assert forall k :: 0 <= k < |events| ==> all[..k] == events[..k];
  }

  /** One message each for ticks 10 and 11 is buffered and collected. */
  function Both(m: Message): (q: seq<Batch>)
    ensures |q| == 2
  {
    [Batch(11, [Indexed(0, m)]), Batch(10, [Indexed(0, m)])]
  }

  lemma PushBoth(cfg: Config, c: Client, m: Message)
    requires c.log == [] && c.queue == [] && 0 <= c.receivable < 10 && cfg.sendCapacity >= 2
    ensures var log := [Slots(11, [Some(m)]), Slots(10, [Some(m)])];
            && ClientEnabled(cfg, c, Push(10, m))
            && var c1 := ClientStep(cfg, c, Push(10, m));
            && ClientEnabled(cfg, c1, Push(11, m))
            && var c2 := ClientStep(cfg, c1, Push(11, m));
            && c1.queue == [] && c2.log == log && c2.queue == [] && c2.receivable == c.receivable
  {
  }

  lemma CollectBoth(cfg: Config, c: Client, m: Message)
    requires c.log == [Slots(11, [Some(m)]), Slots(10, [Some(m)])] && 0 <= c.receivable < 10
    ensures ClientEnabled(cfg, c, Collect(11, c.receivable))
    ensures ClientStep(cfg, c, Collect(11, c.receivable)) == c.(queue := c.queue + Both(m))
  {
    assert DroppedThrough(c.log, c.receivable) == c.log;
    var list := [Some(m)];
    assert Unacknowledged(list, 1) == [];
    assert Unacknowledged(list, 0) == [Indexed(0, m)];
    assert Batches(c.log) == Both(m);
  }

  /** A packet with room for the first of the two batches only. */
  lemma SendFirst(cfg: Config, c: Client, m: Message)
    requires c.queue == Both(m)
    ensures var e := Send(11, Size(cfg.codec, 11, Group(11, [Indexed(0, m)])), false);
            ClientEnabled(cfg, c, e) && ClientStep(cfg, c, e) == c.(queue := [Both(m)[1]])
  {
    hide GroupBits;
    var g1, g2 := Group(11, [Indexed(0, m)]), Group(10, [Indexed(0, m)]);
    var free := Size(cfg.codec, 11, g1);
    assert Both(m)[1..] == [Both(m)[1]] && [Both(m)[1]][1..] == [];
    assert GroupsOf([]) == [] && GroupsOf([Both(m)[1]]) == [g2];
    assert GroupsOf(Both(m)) == [g1, g2];
    assert [g1, g2][1..] == [g2];
    assert Pack(cfg.codec, [g2], 0, 11, true).outcome == Wrote(0);
    assert Pack(cfg.codec, [g1, g2], free, 11, false).outcome == Wrote(1);
  }

  /** For instance: two ticks are buffered and collected, a packet takes the first, and the next collect spoils the queue. */
  lemma CarryOverPanics(cfg: Config, start: System, m: Message, free: nat) returns (events: seq<Event>)
    requires Sensible(cfg) && cfg.sendCapacity >= 2 && Start(start) && 0 <= start.client.receivable < 10
    requires |QueueBits(cfg.codec, 11, GroupsOf([Both(m)[1]] + Both(m)))| <= free
    ensures var c := Run(cfg, start, events).client;
            var again := Collect(11, c.receivable);
            && Orderly(cfg, start, events) && ClientEnabled(cfg, c, again)
            && Pack(cfg.codec, GroupsOf(ClientStep(cfg, c, again).queue), free, 11, false).outcome == NegativeDiff
  {
    var c := start.client;
    var r := c.receivable;
    var send := Send(11, Size(cfg.codec, 11, Group(11, [Indexed(0, m)])), false);
    PushBoth(cfg, c, m);
    var c2 := ClientStep(cfg, ClientStep(cfg, c, Push(10, m)), Push(11, m));
    CollectBoth(cfg, c2, m);
    assert c2.queue + Both(m) == Both(m);
    var c3 := ClientStep(cfg, c2, Collect(11, r));
    SendFirst(cfg, c3, m);
    var c4 := ClientStep(cfg, c3, send);
    CollectBoth(cfg, c4, m);
    events := FourSteps(cfg, start, Push(10, m), Push(11, m), Collect(11, r), send);
    hide Run, Orderly, ClientStep, ClientEnabled;
    SpoiltQueue(cfg, c4, m, free);
  }

  lemma FourSteps(cfg: Config, start: System, e1: Event, e2: Event, e3: Event, e4: Event) returns (events: seq<Event>)
    requires cfg.codec.Consuming() && ClientEnabled(cfg, start.client, e1) && !e1.Collect? && !e2.Collect? && !e4.Collect?
    requires ClientEnabled(cfg, ClientStep(cfg, start.client, e1), e2)
    requires ClientEnabled(cfg, ClientStep(cfg, ClientStep(cfg, start.client, e1), e2), e3)
    requires ClientStep(cfg, ClientStep(cfg, start.client, e1), e2).queue == []
    requires ClientEnabled(cfg, ClientStep(cfg, ClientStep(cfg, ClientStep(cfg, start.client, e1), e2), e3), e4)
    ensures Orderly(cfg, start, events)
    ensures Run(cfg, start, events).client ==
            ClientStep(cfg, ClientStep(cfg, ClientStep(cfg, ClientStep(cfg, start.client, e1), e2), e3), e4)
  {
    var none: seq<Event> := [];
    assert Orderly(cfg, start, none) && Run(cfg, start, none) == start;
    hide Run, Orderly, ClientStep, ClientEnabled;
    RunNext(cfg, start, none, e1);
    var s1 := none + [e1];
    RunNext(cfg, start, s1, e2);
    var s2 := s1 + [e2];
    RunNext(cfg, start, s2, e3);
    var s3 := s2 + [e3];
    RunNext(cfg, start, s3, e4);
    events := s3 + [e4];
  }

  lemma Unencodable(last: u16, groups: seq<Group>)
    requires |groups| >= 2 && !Encodable(groups[0].tick, groups[1].tick)
    ensures !Chain(last, groups)
  {
    hide Encodable;
    assert groups[1..][0] == groups[1];
  }

  lemma SpoiltTicks(m: Message)
    ensures var groups := GroupsOf([Both(m)[1]] + Both(m));
            |groups| >= 2 && groups[0].tick == 10 && groups[1].tick == 11
  {
    var q := [Both(m)[1]] + Both(m);
    assert q[1..] == Both(m);
    GroupsLength(q);
  }

  lemma SpoiltQueue(cfg: Config, c: Client, m: Message, free: nat)
    requires |QueueBits(cfg.codec, 11, GroupsOf([Both(m)[1]] + Both(m)))| <= free
    ensures Pack(cfg.codec, GroupsOf([Both(m)[1]] + Both(m)), free, 11, false).outcome == NegativeDiff
  {
    hide QueueBits, Pack, GroupsOf, Both, Chain;
    assert !Encodable(10, 11);
    hide Encodable;
    SpoiltTicks(m);
    var groups := GroupsOf([Both(m)[1]] + Both(m));
    Unencodable(11, groups);
    RoomyPanicIff(cfg.codec, groups, free, 11, false);
  }
}

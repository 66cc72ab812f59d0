/**
 The sending end of a reliable channel, `shared/src/messages/channels/senders/reliable_sender.rs`:
 messages stay in the resend buffer until acknowledged, and a collect skips the scan
 when the earliest send time says nothing can be due.
 */
module ReliableSenders {
  import opened Options
  import opened Wrapping

  datatype Payload = Payload(bits: seq<bool>)

  /** A message in the resend buffer and when it was last sent. */
  datatype Pending = Pending(lastSent: Option<nat>, message: Payload)

  datatype Packet = Packet(index: int, message: Payload)

  /** The sender on unbounded indices: `sending[i]` is message `first + i`, absent once acknowledged. */
  datatype Sender = Sender(first: int, sending: seq<Option<Pending>>, outgoing: seq<Packet>)

  /** A difference of instants saturates at zero. */
  function Elapsed(since: nat, now: nat): nat {
    if now >= since then now - since else 0
  }

  predicate Due(p: Pending, now: nat, resend: nat) {
    p.lastSent.None? || Elapsed(p.lastSent.value, now) >= resend
  }

  predicate Full(s: Sender, maxDepth: Option<nat>) {
    maxDepth.Some? && |s.sending| >= maxDepth.value
  }

  function Queued(s: Sender, m: Payload, maxDepth: Option<nat>): Sender {
    if Full(s, maxDepth) then s else s.(sending := s.sending + [Some(Pending(None, m))])
  }

  // ----- collecting -----

  predicate IsDue(e: Option<Pending>, now: nat, resend: nat) {
    e.Some? && Due(e.value, now, resend)
  }

  /** The messages due, in order. */
  function DuePackets(first: int, sending: seq<Option<Pending>>, now: nat, resend: nat): seq<Packet> {
    if sending == [] then []
    else
      var n := |sending| - 1;
      DuePackets(first, sending[..n], now, resend)
      + if IsDue(sending[n], now, resend) then [Packet(first + n, sending[n].value.message)] else []
  }

  function Stamped(e: Option<Pending>, now: nat, resend: nat): Option<Pending> {
    if IsDue(e, now, resend) then Some(e.value.(lastSent := Some(now))) else e
  }

  function AllStamped(sending: seq<Option<Pending>>, now: nat, resend: nat): (r: seq<Option<Pending>>)
    ensures |r| == |sending|
    ensures forall i :: 0 <= i < |r| ==> r[i] == Stamped(sending[i], now, resend)
  {
    seq(|sending|, i requires 0 <= i < |sending| => Stamped(sending[i], now, resend))
  }

  /** The plain scan: everything due is staged and stamped. */
  function Collected(s: Sender, now: nat, resend: nat): Sender {
    s.(sending := AllStamped(s.sending, now, resend),
       outgoing := s.outgoing + DuePackets(s.first, s.sending, now, resend))
  }

  /** A packet is staged exactly for each message that is due. */
  lemma {:induction false} DuePacketsExact(first: int, sending: seq<Option<Pending>>, now: nat, resend: nat, p: Packet)
    ensures p in DuePackets(first, sending, now, resend) <==>
            && 0 <= p.index - first < |sending|
            && IsDue(sending[p.index - first], now, resend)
            && sending[p.index - first].value.message == p.message
  {
    if sending != [] { DuePacketsExact(first, sending[..|sending| - 1], now, resend, p); }
  }

  /** What was staged is staged again exactly when the resend time has passed since; a collect stamps every send. */
  lemma StagedAgainIff(s: Sender, t1: nat, r1: nat, t2: nat, r2: nat, p: Packet)
    requires t1 <= t2 && p in DuePackets(s.first, s.sending, t1, r1)
    ensures p in DuePackets(s.first, Collected(s, t1, r1).sending, t2, r2) <==> t2 - t1 >= r2
  {
    hide DuePackets;
    DuePacketsExact(s.first, s.sending, t1, r1, p);
    DuePacketsExact(s.first, Collected(s, t1, r1).sending, t2, r2, p);
  }

  ghost predicate Ascends(q: seq<Packet>, low: int, high: int) {
    && (forall i :: 0 <= i < |q| ==> low <= q[i].index < high)
    && (forall i, j :: 0 <= i < j < |q| ==> q[i].index < q[j].index)
  }

  /** The messages due are staged oldest first, each once. */
  lemma {:induction false} DuePacketsAscend(first: int, sending: seq<Option<Pending>>, now: nat, resend: nat)
    ensures Ascends(DuePackets(first, sending, now, resend), first, first + |sending|)
  {
    if sending != [] { DuePacketsAscend(first, sending[..|sending| - 1], now, resend); }
  }

  lemma {:induction false} NothingDue(s: Sender, now: nat, resend: nat)
    requires forall i :: 0 <= i < |s.sending| ==> !IsDue(s.sending[i], now, resend)
    ensures Collected(s, now, resend) == s
  {
    NoPackets(s.first, s.sending, now, resend);
    assert AllStamped(s.sending, now, resend) == s.sending;
  }

  lemma {:induction false} NoPackets(first: int, sending: seq<Option<Pending>>, now: nat, resend: nat)
    requires forall i :: 0 <= i < |sending| ==> !IsDue(sending[i], now, resend)
    ensures DuePackets(first, sending, now, resend) == []
  {
    if sending != [] { NoPackets(first, sending[..|sending| - 1], now, resend); }
  }

  // ----- acknowledging -----

  /** Without the acknowledged messages at the front. */
  function Cleaned(s: Sender): Sender
    decreases |s.sending|
  {
    if s.sending == [] || s.sending[0].Some? then s
    else Cleaned(s.(first := s.first + 1, sending := s.sending[1..]))
  }

  predicate Holds(s: Sender, j: int) {
    0 <= j - s.first < |s.sending| && s.sending[j - s.first].Some?
  }

  function Acknowledged(s: Sender, j: int): Sender {
    if Holds(s, j) then Cleaned(s.(sending := s.sending[j - s.first := None])) else s
  }

  function Next(s: Sender): int {
    s.first + |s.sending|
  }

  /** An acknowledgement lets go of that message and of no other. */
  lemma AcknowledgedExact(s: Sender, j: int, i: int)
    ensures Holds(Acknowledged(s, j), i) <==> Holds(s, i) && i != j
    ensures Holds(Acknowledged(s, j), i) ==>
              Acknowledged(s, j).sending[i - Acknowledged(s, j).first] == s.sending[i - s.first]
    ensures Next(Acknowledged(s, j)) == Next(s) && Acknowledged(s, j).outgoing == s.outgoing
    ensures Acknowledged(s, j).first >= s.first && |Acknowledged(s, j).sending| <= |s.sending|
  {
    hide Cleaned;
    if Holds(s, j) { CleanedExact(s.(sending := s.sending[j - s.first := None]), i); }
  }

  /** The first message at or after slot `from` that is held under a residue. */
  function FirstHeld(s: Sender, index: u16, from: nat): Option<int>
    requires from <= |s.sending|
    decreases |s.sending| - from
  {
    if from == |s.sending| then None
    else if s.sending[from].Some? && Wrap(s.first + from) == index then Some(s.first + from)
    else FirstHeld(s, index, from + 1)
  }

  /** What an acknowledgement does: it names its message by the residue only. */
  function AckedBy(s: Sender, index: u16): Sender {
    var j := FirstHeld(s, index, 0);
    if j.Some? then Acknowledged(s, j.value) else s
  }

  lemma {:induction false} FirstHeldIs(s: Sender, index: u16, from: nat, i: int)
    requires from <= |s.sending|
    ensures var j := FirstHeld(s, index, from);
            && (j.Some? ==> s.first + from <= j.value && Holds(s, j.value) && Wrap(j.value) == index)
            && (s.first + from <= i && Holds(s, i) && Wrap(i) == index ==> j.Some? && j.value <= i)
    decreases |s.sending| - from
  {
    hide Wrap;
    if from < |s.sending| && !(s.sending[from].Some? && Wrap(s.first + from) == index) {
      FirstHeldIs(s, index, from + 1, i);
    }
  }

  lemma {:induction false} CleanedExact(s: Sender, i: int)
    ensures Holds(Cleaned(s), i) <==> Holds(s, i)
    ensures Holds(s, i) ==> Cleaned(s).sending[i - Cleaned(s).first] == s.sending[i - s.first]
    ensures Next(Cleaned(s)) == Next(s) && Cleaned(s).outgoing == s.outgoing
    ensures Cleaned(s).first >= s.first && |Cleaned(s).sending| <= |s.sending|
    decreases |s.sending|
  {
    if s.sending != [] && s.sending[0].None? {
      var t := s.(first := s.first + 1, sending := s.sending[1..]);
      CleanedExact(t, i);
      assert Holds(t, i) <==> Holds(s, i);
    }
  }

  // ----- the object -----

  datatype Entry = Entry(index: u16, lastSent: Option<nat>, message: Payload)

  datatype Staged = Staged(index: u16, message: Payload)

  function Shown(e: Option<Pending>, index: int): Option<Entry> {
    if e.None? then None else Some(Entry(Wrap(index), e.value.lastSent, e.value.message))
  }

  ghost predicate ShowsSending(entries: seq<Option<Entry>>, first: int, sending: seq<Option<Pending>>) {
    |entries| == |sending| && forall i :: 0 <= i < |entries| ==> entries[i] == Shown(sending[i], first + i)
  }

  ghost predicate ShowsOutgoing(staged: seq<Staged>, packets: seq<Packet>) {
    |staged| == |packets| && forall i :: 0 <= i < |staged| ==> staged[i] == Staged(Wrap(packets[i].index), packets[i].message)
  }

  ghost predicate SentSince(e: Option<Pending>, min: Option<nat>) {
    e.Some? ==> e.value.lastSent.Some? && (min.Some? ==> min.value <= e.value.lastSent.value)
  }

  ghost predicate AllSentSince(sending: seq<Option<Pending>>, min: Option<nat>) {
    forall i :: 0 <= i < |sending| ==> SentSince(sending[i], min)
  }

  /** The short cut is sound: if the earliest send is too recent, nothing is due. */
  lemma TooRecent(s: Sender, min: nat, now: nat, resend: nat)
    requires AllSentSince(s.sending, Some(min)) && Elapsed(min, now) < resend
    ensures Collected(s, now, resend) == s
  {
    forall i | 0 <= i < |s.sending| ensures !IsDue(s.sending[i], now, resend) {
      assert SentSince(s.sending[i], Some(min));
    }
    NothingDue(s, now, resend);
  }

  lemma NextWraps(x: int)
    ensures WrappingAdd(Wrap(x), 1) == Wrap(x + 1)
  {
  }

  /** Fewer than 2^16 consecutive indices are told apart by their residues. */
  lemma SameResidue(x: int, y: int)
    requires -0x1_0000 < x - y < 0x1_0000
    ensures Wrap(x) == Wrap(y) <==> x == y
  {
  }

  class ReliableSender {
    var sendingMessages: seq<Option<Entry>>
    var nextSendMessageIndex: u16
    var outgoingMessages: seq<Staged>
    var minLastSent: Option<nat>
    var hasUnsent: bool
    const maxQueueDepth: Option<nat>
    ghost var state: Sender

    /** The buffers show the unbounded state; unless something is unsent, nothing was sent before `minLastSent`. */
    ghost predicate Valid()
      reads this
    {
      && ShowsSending(sendingMessages, state.first, state.sending)
      && nextSendMessageIndex == Wrap(Next(state))
      && ShowsOutgoing(outgoingMessages, state.outgoing)
      && (!hasUnsent ==> AllSentSince(state.sending, minLastSent))
    }

    constructor (maxQueueDepth: Option<nat>)
      ensures Valid() && state == Sender(0, [], []) && this.maxQueueDepth == maxQueueDepth
    {
      sendingMessages, nextSendMessageIndex, outgoingMessages := [], 0, [];
      minLastSent, hasUnsent, this.maxQueueDepth := None, false, maxQueueDepth;
      state := Sender(0, [], []);
    }

    method SendMessage(m: Payload) returns (accepted: bool)
      requires Valid()
      modifies this
      ensures Valid() && accepted == !Full(old(state), maxQueueDepth) && state == Queued(old(state), m, maxQueueDepth)
    {
      if maxQueueDepth.Some? && |sendingMessages| >= maxQueueDepth.value {
        return false;
      }
      NextWraps(Next(state));
      sendingMessages := sendingMessages + [Some(Entry(nextSendMessageIndex, None, m))];
      nextSendMessageIndex := WrappingAdd(nextSendMessageIndex, 1);
      hasUnsent := true;
      state := state.(sending := state.sending + [Some(Pending(None, m))]);
      return true;
    }

    method TakeNextMessages() returns (taken: seq<Staged>)
      requires Valid()
      modifies this
      ensures Valid() && state == old(state).(outgoing := [])
      ensures ShowsOutgoing(taken, old(state).outgoing)
    {
      taken := outgoingMessages;
      outgoingMessages := [];
      state := state.(outgoing := []);
    }

    /** One scanned entry: staged and stamped when due, and counted in the new earliest send time. */
    static method Scan(e: Entry, now: nat, resend: nat, min: Option<nat>, ghost p: Pending, ghost index: int)
        returns (e': Entry, due: bool, min': Option<nat>)
      requires Some(e) == Shown(Some(p), index)
      ensures due == IsDue(Some(p), now, resend)
      ensures Some(e') == Shown(Stamped(Some(p), now, resend), index)
      ensures SentSince(Stamped(Some(p), now, resend), min')
      ensures min'.Some? && (min.Some? ==> min'.value <= min.value)
    {
      due := e.lastSent.None? || Elapsed(e.lastSent.value, now) >= resend;
      e' := if due then e.(lastSent := Some(now)) else e;
      var t := e'.lastSent.value;
      min' := if min.None? || t < min.value then Some(t) else min;
    }

    method CollectMessages(now: nat, resend: nat)
      requires Valid()
      modifies this
      ensures Valid() && state == Collected(old(state), now, resend)
    {
      if !hasUnsent {
        if sendingMessages == [] {
          NothingDue(state, now, resend);
          return;
        }
        if minLastSent.Some? && Elapsed(minLastSent.value, now) < resend {
          TooRecent(state, minLastSent.value, now, resend);
          return;
        }
      }
      ScanAll(now, resend);
    }

    method ScanAll(now: nat, resend: nat)
      requires Valid()
      modifies this
      ensures Valid() && state == Collected(old(state), now, resend)
    {
      hide Wrap, IsDue, Stamped, Shown, SentSince, ShowsSending, ShowsOutgoing, Earliest;
      var entries, staged, newMin := [], [], None;
      ghost var first, sending := state.first, state.sending;
      ghost var stamped: seq<Option<Pending>> := [];
      NothingScanned(first);
      assert sending[..0] == [];
      SameLength(sendingMessages, first, sending);
      for i := 0 to |sendingMessages|
        invariant unchanged(this) && |stamped| == i
        invariant ShowsSending(entries, first, stamped)
        invariant forall k :: 0 <= k < i ==> stamped[k] == Stamped(sending[k], now, resend)
        invariant ShowsOutgoing(staged, DuePackets(first, sending[..i], now, resend))
        invariant Earliest(stamped, newMin)
      {
        var e := sendingMessages[i];
        DuePacketsStep(first, sending, now, resend, i);
        EntryAt(sendingMessages, first, sending, i);
        EntryShown(sending[i], first + i, now, resend);
        ghost var oldMin := newMin;
        if e.Some? {
          var e', due;
          e', due, newMin := Scan(e.value, now, resend, newMin, sending[i].value, first + i);
          if due {
            AppendStaged(staged, DuePackets(first, sending[..i], now, resend), first + i, e'.message);
            staged := staged + [Staged(e'.index, e'.message)];
          }
          e := Some(e');
        }
        EarliestStep(stamped, Stamped(sending[i], now, resend), oldMin, newMin);
        AppendShown(entries, first, stamped, e, Stamped(sending[i], now, resend));
        entries := entries + [e];
        stamped := stamped + [Stamped(sending[i], now, resend)];
      }
      assert stamped == AllStamped(sending, now, resend);
      assert sending[..|sending|] == sending;
      AllOutgoing(outgoingMessages, state.outgoing, staged, DuePackets(first, sending, now, resend));
      EarliestIsSound(stamped, newMin);
      sendingMessages, outgoingMessages, minLastSent, hasUnsent := entries, outgoingMessages + staged, newMin, false;
      state := Collected(state, now, resend);
    }

    method CleanupSentMessages()
      requires ShowsSending(sendingMessages, state.first, state.sending)
      modifies this`sendingMessages, this`state
      ensures state == Cleaned(old(state)) && ShowsSending(sendingMessages, state.first, state.sending)
    {
      hide Wrap, Shown, ShowsSending, Cleaned;
      while true
        invariant ShowsSending(sendingMessages, state.first, state.sending)
        invariant Cleaned(state) == Cleaned(old(state))
        decreases |sendingMessages|
      {
        SameLength(sendingMessages, state.first, state.sending);
        if sendingMessages != [] { EntryAt(sendingMessages, state.first, state.sending, 0); }
        CleanedStep(state);
        if sendingMessages == [] || sendingMessages[0].Some? {
          break;
        }
        TailShown(sendingMessages, state.first, state.sending);
        sendingMessages := sendingMessages[1..];
        state := state.(first := state.first + 1, sending := state.sending[1..]);
      }
    }

    /** Lets go of one entry, and of all cleared entries before the first one held. */
    method ClearEntry(i: nat)
      requires Valid() && i < |sendingMessages| == |state.sending| && state.sending[i].Some?
      modifies this`sendingMessages, this`state
      ensures Valid() && state == Acknowledged(old(state), old(state).first + i)
    {
      hide Wrap, Cleaned, ShowsSending, ShowsOutgoing, AllSentSince, Shown;
      ghost var before := state;
      ClearShown(sendingMessages, state.first, state.sending, i);
      sendingMessages := sendingMessages[i := None];
      state := state.(sending := state.sending[i := None]);
      CleanupSentMessages();
      StillShown(before, before.first + i, minLastSent);
    }

    /** Lets go of the first message held under the residue, however long the queue. */
    method DeliverMessage(index: u16) returns (r: Option<Payload>)
      requires Valid()
      modifies this
      ensures Valid() && state == AckedBy(old(state), index)
      ensures var j := FirstHeld(old(state), index, 0);
              && (j.None? <==> r.None?)
              && (j.Some? ==> Holds(old(state), j.value) && r == Some(old(state).sending[j.value - old(state).first].value.message))
    {
      hide Wrap, Cleaned, ShowsSending, ShowsOutgoing, AllSentSince, Shown;
      SameLength(sendingMessages, state.first, state.sending);
      for i := 0 to |sendingMessages|
        invariant unchanged(this)
        invariant FirstHeld(state, index, i) == FirstHeld(state, index, 0)
      {
        EntryAt(sendingMessages, state.first, state.sending, i);
        EntryShown(state.sending[i], state.first + i, 0, 0);
        if sendingMessages[i].Some? && sendingMessages[i].value.index == index {
          r := Some(sendingMessages[i].value.message);
          ClearEntry(i);
          return;
        }
      }
      return None;
    }
  }

  lemma StillShown(s: Sender, j: int, min: Option<nat>)
    requires Holds(s, j)
    ensures AllSentSince(s.sending, min) ==> AllSentSince(Acknowledged(s, j).sending, min)
    ensures Next(Acknowledged(s, j)) == Next(s) && Acknowledged(s, j).outgoing == s.outgoing
  {
    var s' := Acknowledged(s, j);
    AcknowledgedExact(s, j, j);
    if AllSentSince(s.sending, min) {
      forall i | 0 <= i < |s'.sending| ensures SentSince(s'.sending[i], min) {
        AcknowledgedExact(s, j, s'.first + i);
      }
    }
  }

  lemma DuePacketsStep(first: int, sending: seq<Option<Pending>>, now: nat, resend: nat, i: nat)
    requires i < |sending|
    ensures DuePackets(first, sending[..i + 1], now, resend) ==
            if IsDue(sending[i], now, resend)
            then DuePackets(first, sending[..i], now, resend) + [Packet(first + i, sending[i].value.message)]
            else DuePackets(first, sending[..i], now, resend)
  {
    assert sending[..i + 1][..i] == sending[..i];
  }

  lemma EntryShown(e: Option<Pending>, index: int, now: nat, resend: nat)
    ensures Shown(e, index).Some? == e.Some? == Stamped(e, now, resend).Some?
    ensures IsDue(e, now, resend) ==> e.Some?
    ensures e.None? ==> !IsDue(e, now, resend) && Stamped(e, now, resend) == None && Shown(None, index) == None
    ensures e.None? ==> forall min :: SentSince(e, min)
    ensures e.Some? ==> Shown(e, index).value.index == Wrap(index) && Shown(e, index).value.message == e.value.message
    ensures e.Some? ==> Shown(Stamped(e, now, resend), index).Some?
                        && Shown(Stamped(e, now, resend), index).value.index == Wrap(index)
                        && Shown(Stamped(e, now, resend), index).value.message == e.value.message
  {
  }

  lemma CleanedStep(s: Sender)
    ensures s.sending == [] || s.sending[0].Some? ==> Cleaned(s) == s
    ensures s.sending != [] && s.sending[0].None? ==>
              Cleaned(s) == Cleaned(s.(first := s.first + 1, sending := s.sending[1..]))
  {
  }

  lemma SameLength(entries: seq<Option<Entry>>, first: int, sending: seq<Option<Pending>>)
    requires ShowsSending(entries, first, sending)
    ensures |entries| == |sending|
  {
  }

  lemma EntryAt(entries: seq<Option<Entry>>, first: int, sending: seq<Option<Pending>>, i: nat)
    requires ShowsSending(entries, first, sending) && i < |entries|
    ensures i < |sending| && entries[i] == Shown(sending[i], first + i) && (entries[i].None? <==> sending[i].None?)
  {
  }

  lemma ClearShown(entries: seq<Option<Entry>>, first: int, sending: seq<Option<Pending>>, i: nat)
    requires ShowsSending(entries, first, sending) && i < |entries| && i < |sending|
    ensures ShowsSending(entries[i := None], first, sending[i := None])
  {
    hide Wrap;
  }

  lemma TailShown(entries: seq<Option<Entry>>, first: int, sending: seq<Option<Pending>>)
    requires ShowsSending(entries, first, sending) && entries != [] && sending != []
    ensures ShowsSending(entries[1..], first + 1, sending[1..])
  {
    hide Shown;
  }

  lemma AppendShown(entries: seq<Option<Entry>>, first: int, sending: seq<Option<Pending>>, e: Option<Entry>, p: Option<Pending>)
    requires ShowsSending(entries, first, sending) && e == Shown(p, first + |sending|)
    ensures ShowsSending(entries + [e], first, sending + [p])
  {
    hide Shown;
  }

  lemma AppendStaged(staged: seq<Staged>, packets: seq<Packet>, index: int, m: Payload)
    requires ShowsOutgoing(staged, packets)
    ensures ShowsOutgoing(staged + [Staged(Wrap(index), m)], packets + [Packet(index, m)])
  {
    hide Wrap;
  }

  lemma AllOutgoing(a: seq<Staged>, p: seq<Packet>, b: seq<Staged>, q: seq<Packet>)
    requires ShowsOutgoing(a, p) && ShowsOutgoing(b, q)
    ensures ShowsOutgoing(a + b, p + q)
  {
    hide Wrap;
  }

  /** `min` is below every send time, and absent only when there is none. */
  ghost predicate Earliest(sending: seq<Option<Pending>>, min: Option<nat>) {
    AllSentSince(sending, min) && (min.None? ==> forall i :: 0 <= i < |sending| ==> sending[i].None?)
  }

  lemma NothingScanned(first: int)
    ensures ShowsSending([], first, []) && ShowsOutgoing([], []) && Earliest([], None)
  {
  }

  lemma EarliestStep(sending: seq<Option<Pending>>, e: Option<Pending>, min: Option<nat>, min': Option<nat>)
    requires Earliest(sending, min) && SentSince(e, min')
    requires if e.None? then min' == min else min'.Some? && (min.Some? ==> min'.value <= min.value)
    ensures Earliest(sending + [e], min')
  {
    forall i | 0 <= i < |sending| ensures SentSince(sending[i], min') {
      assert SentSince(sending[i], min);
    }
  }

  lemma EarliestIsSound(sending: seq<Option<Pending>>, min: Option<nat>)
    requires Earliest(sending, min)
    ensures AllSentSince(sending, min)
  {
  }
}

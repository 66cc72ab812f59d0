/**
 The recycling allocator of `u16` keys, `shared/src/key_generator.rs`. Two queues and a counter
 behave as one first-in first-out queue of freed keys, of which the front may be reissued once
 it has waited out the timeout.
 */
module KeyGenerators {
  import opened Options
  import opened Wrapping

  /** A freed key and the time it was freed. */
  datatype Waiting = Waiting(key: u16, since: nat)

  /** The simple allocator: freed keys in order, the keys in use, and the first key never issued. */
  datatype Ledger = Ledger(queue: seq<Waiting>, live: set<u16>, next: u16, clock: nat)

  const EMPTY: Ledger := Ledger([], {}, 0, 0)

  predicate Eligible(w: Waiting, now: nat, timeout: nat) {
    now >= w.since && now - w.since >= timeout
  }

  /** `None` is the panic of an exhausted allocator; it comes one key early, so 65535 is never issued. */
  function Issue(l: Ledger, now: nat, timeout: nat): (Ledger, Option<u16>) {
    if l.queue != [] && Eligible(l.queue[0], now, timeout) then
      var key := l.queue[0].key;
      (l.(queue := l.queue[1..], live := l.live + {key}, clock := now), Some(key))
    else if l.next == 0xFFFF then (l.(clock := now), None)
    else (l.(live := l.live + {l.next}, next := l.next + 1, clock := now), Some(l.next))
  }

  function Recycle(l: Ledger, key: u16, now: nat): Ledger {
    l.(queue := l.queue + [Waiting(key, now)], live := l.live - {key}, clock := now)
  }

  ghost predicate Queued(l: Ledger, key: u16) {
    exists i :: 0 <= i < |l.queue| && l.queue[i].key == key
  }

  /** The queue is in order of time. */
  ghost predicate Timely(l: Ledger) {
    && (forall i :: 0 <= i < |l.queue| ==> l.queue[i].since <= l.clock)
    && (forall i, j :: 0 <= i < j < |l.queue| ==> l.queue[i].since <= l.queue[j].since)
  }

  /** Every key below `next` is live or waits at exactly one place, never both. */
  ghost predicate Partitioned(l: Ledger) {
    && (forall i, j :: 0 <= i < j < |l.queue| ==> l.queue[i].key != l.queue[j].key)
    && (forall i :: 0 <= i < |l.queue| ==> l.queue[i].key < l.next && l.queue[i].key !in l.live)
    && (forall k :: k in l.live ==> k < l.next)
    && (forall k: u16 :: k < l.next ==> k in l.live || Queued(l, k))
  }

  /** An issued key was not in use, and a new one is minted exactly when no freed key is eligible. */
  lemma IssueIsFresh(l: Ledger, now: nat, timeout: nat)
    requires Partitioned(l) && Timely(l) && l.clock <= now
    ensures var (l', key) := Issue(l, now, timeout);
            && (key.Some? ==> key.value !in l.live && l'.live == l.live + {key.value})
            && ((key.None? || key == Some(l.next)) <==>
                forall i :: 0 <= i < |l.queue| ==> !Eligible(l.queue[i], now, timeout))
            && (key.None? ==> l.next == 0xFFFF)
  {
    if l.queue != [] && !Eligible(l.queue[0], now, timeout) {
      forall i | 0 <= i < |l.queue| ensures !Eligible(l.queue[i], now, timeout) {
        assert l.queue[0].since <= l.queue[i].since;
      }
    }
  }

  /** If any freed key has waited out the timeout, the one freed first is issued; otherwise a new one, while there are any. */
  lemma IssuesTheOldest(l: Ledger, now: nat, timeout: nat)
    requires Timely(l) && l.clock <= now
    ensures var (l', key) := Issue(l, now, timeout);
            if exists i :: 0 <= i < |l.queue| && now - l.queue[i].since >= timeout then
              && key == Some(l.queue[0].key) && l'.queue == l.queue[1..] && l'.next == l.next
              && forall i :: 0 <= i < |l.queue| ==> l.queue[0].since <= l.queue[i].since
            else
              && l'.queue == l.queue
              && (if l.next < 0xFFFF then key == Some(l.next) && l'.next == l.next + 1 else key == None && l'.next == l.next)
  {
    if i :| 0 <= i < |l.queue| && now - l.queue[i].since >= timeout {
      assert l.queue[0].since <= l.queue[i].since;
    }
  }

  lemma ReissueKeeps(l: Ledger, now: nat)
    requires Partitioned(l) && Timely(l) && l.clock <= now && l.queue != []
    ensures var l' := l.(queue := l.queue[1..], live := l.live + {l.queue[0].key}, clock := now);
            Partitioned(l') && Timely(l')
  {
    var l' := l.(queue := l.queue[1..], live := l.live + {l.queue[0].key}, clock := now);
    assert forall i :: 0 <= i < |l'.queue| ==> l'.queue[i] == l.queue[i + 1];
    forall k: u16 | k < l'.next && k !in l'.live ensures Queued(l', k) {
      var i :| 0 <= i < |l.queue| && l.queue[i].key == k;
      assert l'.queue[i - 1].key == k;
    }
  }

  lemma MintKeeps(l: Ledger, now: nat)
    requires Partitioned(l) && Timely(l) && l.clock <= now && l.next < 0xFFFF
    ensures var l' := l.(live := l.live + {l.next}, next := l.next + 1, clock := now);
            Partitioned(l') && Timely(l')
  {
    var l' := l.(live := l.live + {l.next}, next := l.next + 1, clock := now);
    forall k: u16 | k < l'.next && k !in l'.live ensures Queued(l', k) {
      var i :| 0 <= i < |l.queue| && l.queue[i].key == k;
      assert l'.queue[i].key == k;
    }
  }

  lemma IdleKeeps(l: Ledger, now: nat)
    requires Partitioned(l) && Timely(l) && l.clock <= now
    ensures Partitioned(l.(clock := now)) && Timely(l.(clock := now))
  {
    var l' := l.(clock := now);
    forall k: u16 | k < l'.next && k !in l'.live ensures Queued(l', k) {
      var i :| 0 <= i < |l.queue| && l.queue[i].key == k;
      assert l'.queue[i].key == k;
    }
  }

  lemma IssueKeeps(l: Ledger, now: nat, timeout: nat)
    requires Partitioned(l) && Timely(l) && l.clock <= now
    ensures Partitioned(Issue(l, now, timeout).0) && Timely(Issue(l, now, timeout).0)
  {
    hide Partitioned, Timely;
    if l.queue != [] && Eligible(l.queue[0], now, timeout) {
      ReissueKeeps(l, now);
    } else if l.next < 0xFFFF {
      MintKeeps(l, now);
    } else {
      IdleKeeps(l, now);
    }
  }

  /** Freeing a key keeps the partition exactly when the key was in use. */
  lemma RecycleKeepsIff(l: Ledger, key: u16, now: nat)
    requires Partitioned(l) && Timely(l) && l.clock <= now
    ensures Partitioned(Recycle(l, key, now)) <==> key in l.live
    ensures Timely(Recycle(l, key, now))
  {
    var l' := Recycle(l, key, now);
    var n := |l.queue|;
    assert forall i :: 0 <= i < n ==> l'.queue[i] == l.queue[i];
    assert l'.queue[n].key == key;
    if key in l.live {
      forall k: u16 | k < l'.next ensures k in l'.live || Queued(l', k) {
        if Queued(l, k) {
          var i :| 0 <= i < n && l.queue[i].key == k;
          assert l'.queue[i].key == k;
        }
      }
    } else if key < l.next {
      var i :| 0 <= i < n && l.queue[i].key == key;
      assert l'.queue[i].key == l'.queue[n].key;
    }
  }

  // ----- every run -----

  datatype Event = Generate(now: nat) | Free(key: u16, now: nat)

  /** A run of calls; a generate that panics changes nothing. */
  function Run(events: seq<Event>, timeout: nat): Ledger {
    if events == [] then EMPTY
    else
      var l := Run(events[..|events| - 1], timeout);
      match events[|events| - 1]
      case Generate(now) => Issue(l, now, timeout).0
      case Free(key, now) => Recycle(l, key, now)
  }

  /** The key issued by event `n`, if it is a successful generate. */
  function Issued(events: seq<Event>, n: nat, timeout: nat): Option<u16>
    requires n < |events|
  {
    if events[n].Generate? then Issue(Run(events[..n], timeout), events[n].now, timeout).1 else None
  }

  /** Time does not run backward and only keys in use are freed. */
  ghost predicate Disciplined(events: seq<Event>, timeout: nat) {
    && (forall i, j :: 0 <= i < j < |events| ==> events[i].now <= events[j].now)
    && (forall n :: 0 <= n < |events| && events[n].Free? ==> events[n].key in Run(events[..n], timeout).live)
  }

  lemma DisciplinedPrefix(events: seq<Event>, timeout: nat, n: nat)
    requires Disciplined(events, timeout) && n <= |events|
    ensures Disciplined(events[..n], timeout)
  {
    var before := events[..n];
    forall i | 0 <= i < n && before[i].Free? ensures before[i].key in Run(before[..i], timeout).live {
      assert before[..i] == events[..i];
    }
  }

  lemma ClockIsLast(events: seq<Event>, timeout: nat)
    requires events != []
    ensures Run(events, timeout).clock == events[|events| - 1].now
  {
  }

  /** Every disciplined run keeps the partition. */
  lemma {:induction false} EveryRunPartitions(events: seq<Event>, timeout: nat)
    requires Disciplined(events, timeout)
    ensures Partitioned(Run(events, timeout)) && Timely(Run(events, timeout))
  {
    hide Partitioned, Timely, Disciplined;
    if events == [] {
      EmptyPartitions();
    } else {
      var n := |events| - 1;
      DisciplinedPrefix(events, timeout, n);
      EveryRunPartitions(events[..n], timeout);
      var l := Run(events[..n], timeout);
      LastEventAllowed(events, timeout);
      match events[n]
      case Generate(now) => IssueKeeps(l, now, timeout);
      case Free(key, now) => RecycleKeepsIff(l, key, now);
    }
  }

  lemma EmptyPartitions()
    ensures Partitioned(EMPTY) && Timely(EMPTY)
  {
  }

  lemma LastEventAllowed(events: seq<Event>, timeout: nat)
    requires Disciplined(events, timeout) && events != []
    ensures var l, e := Run(events[..|events| - 1], timeout), events[|events| - 1];
            l.clock <= e.now && (e.Free? ==> e.key in l.live)
  {
    var n := |events| - 1;
    if n > 0 { ClockIsLast(events[..n], timeout); }
  }

  /** One step, seen from one key: it enters use only by being issued and leaves it only by being freed. */
  lemma LiveStep(events: seq<Event>, timeout: nat, key: u16)
    requires Disciplined(events, timeout) && events != []
    ensures var n := |events| - 1;
            var l, l' := Run(events[..n], timeout), Run(events, timeout);
            && (Issued(events, n, timeout) == Some(key) ==> key !in l.live && key in l'.live)
            && (key in l.live && key !in l'.live ==> events[n].Free? && events[n].key == key)
  {
    var n := |events| - 1;
    DisciplinedPrefix(events, timeout, n);
    EveryRunPartitions(events[..n], timeout);
    LastEventAllowed(events, timeout);
    if events[n].Generate? { IssueIsFresh(Run(events[..n], timeout), events[n].now, timeout); }
  }

  /** A key that became live and is not live now was freed in between. */
  lemma {:induction false} FreedInBetween(events: seq<Event>, timeout: nat, key: u16, i: nat, j: nat) returns (m: nat)
    requires Disciplined(events, timeout) && i <= j <= |events|
    requires key in Run(events[..i], timeout).live && key !in Run(events[..j], timeout).live
    ensures i <= m < j && events[m].Free? && events[m].key == key
  {
    hide Disciplined, Issue, Recycle;
    m := j - 1;
    DisciplinedPrefix(events, timeout, j);
    LiveStep(events[..j], timeout, key);
    assert events[..j][..m] == events[..m];
    if key !in Run(events[..m], timeout).live {
      m := FreedInBetween(events, timeout, key, i, m);
    }
  }

  /** No key is handed out twice without having been freed in between. */
  lemma NeverIssuedWhileInUse(events: seq<Event>, timeout: nat, key: u16, i: nat, j: nat) returns (m: nat)
    requires Disciplined(events, timeout) && i < j < |events|
    requires Issued(events, i, timeout) == Some(key) == Issued(events, j, timeout)
    ensures i < m < j && events[m].Free? && events[m].key == key
  {
    hide Disciplined, Issue, Recycle;
    IssuedHere(events, timeout, key, i);
    IssuedHere(events, timeout, key, j);
    m := FreedInBetween(events, timeout, key, i + 1, j);
  }

  lemma IssuedHere(events: seq<Event>, timeout: nat, key: u16, i: nat)
    requires Disciplined(events, timeout) && i < |events| && Issued(events, i, timeout) == Some(key)
    ensures key !in Run(events[..i], timeout).live && key in Run(events[..i + 1], timeout).live
  {
    hide Disciplined, Issue, Recycle;
    DisciplinedPrefix(events, timeout, i + 1);
    assert events[..i + 1][..i] == events[..i];
    LiveStep(events[..i + 1], timeout, key);
  }

  /** A waiting key waits since the last time it was freed. */
  ghost predicate WaitsSince(l: Ledger, key: u16, t: nat) {
    forall q :: 0 <= q < |l.queue| && l.queue[q].key == key ==> t <= l.queue[q].since
  }

  lemma WaitsSinceStep(events: seq<Event>, timeout: nat, key: u16, t: nat)
    requires events != [] && t <= events[|events| - 1].now
    requires WaitsSince(Run(events[..|events| - 1], timeout), key, t)
    ensures WaitsSince(Run(events, timeout), key, t)
  {
    var n := |events| - 1;
    var l, l' := Run(events[..n], timeout), Run(events, timeout);
    if events[n].Generate? && l'.queue != l.queue {
      assert forall q :: 0 <= q < |l'.queue| ==> l'.queue[q] == l.queue[q + 1];
    }
  }

  lemma JustFreed(l: Ledger, key: u16, now: nat)
    requires Partitioned(l) && key in l.live
    ensures WaitsSince(Recycle(l, key, now), key, now)
  {
  }

  lemma {:induction false} WaitsSinceFreed(events: seq<Event>, timeout: nat, i: nat)
    requires Disciplined(events, timeout) && i < |events| && events[i].Free?
    ensures WaitsSince(Run(events, timeout), events[i].key, events[i].now)
  {
    hide Partitioned, Timely, WaitsSince;
    var n := |events| - 1;
    DisciplinedPrefix(events, timeout, n);
    if i < n {
      WaitsSinceFreed(events[..n], timeout, i);
      WaitsSinceStep(events, timeout, events[i].key, events[i].now);
    } else {
      EveryRunPartitions(events[..n], timeout);
      LastEventAllowed(events, timeout);
      JustFreed(Run(events[..n], timeout), events[i].key, events[i].now);
    }
  }

  /** No key is handed out again before the timeout has passed since any earlier time it was freed. */
  lemma NeverReissuedEarly(events: seq<Event>, timeout: nat, i: nat, j: nat)
    requires Disciplined(events, timeout) && i < j < |events|
    requires events[i].Free? && Issued(events, j, timeout) == Some(events[i].key)
    ensures events[j].now - events[i].now >= timeout
  {
    var before, key := events[..j], events[i].key;
    var l := Run(before, timeout);
    DisciplinedPrefix(events, timeout, j);
    EveryRunPartitions(before, timeout);
    WaitsSinceFreed(before, timeout, i);
    FreedWasIssued(before, timeout, i);
  }

  /** Whatever was freed had been minted. */
  lemma {:induction false} FreedWasIssued(events: seq<Event>, timeout: nat, i: nat)
    requires Disciplined(events, timeout) && i < |events| && events[i].Free?
    ensures events[i].key < Run(events, timeout).next
  {
    hide Partitioned, Timely, Disciplined, Eligible;
    var n := |events| - 1;
    DisciplinedPrefix(events, timeout, n);
    if i < n {
      FreedWasIssued(events[..n], timeout, i);
    } else {
      EveryRunPartitions(events[..n], timeout);
      LastEventAllowed(events, timeout);
      LiveIsMinted(Run(events[..n], timeout), events[i].key);
    }
  }

  lemma LiveIsMinted(l: Ledger, key: u16)
    requires Partitioned(l) && key in l.live
    ensures key < l.next
  {
  }

  /** The allocator gives up one key early: the last key is never handed out. */
  lemma LastKeyNeverIssued(events: seq<Event>, timeout: nat, n: nat)
    requires Disciplined(events, timeout) && n < |events|
    ensures Issued(events, n, timeout) != Some(0xFFFF)
  {
    hide Disciplined, Timely;
    DisciplinedPrefix(events, timeout, n);
    EveryRunPartitions(events[..n], timeout);
  }

  /** Freeing a key twice hands it out twice. */
  lemma FreeingTwiceIssuesTwice(timeout: nat)
    ensures var l0 := Issue(EMPTY, 0, timeout).0;
            var l := Recycle(Recycle(l0, 0, 0), 0, 0);
            && Issue(l, timeout, timeout).1 == Some(0)
            && Issue(Issue(l, timeout, timeout).0, timeout, timeout).1 == Some(0)
  {
  }

  // ----- the object -----

  class KeyGenerator {
    var recyclingKeys: seq<Waiting>
    var recycledKeys: seq<u16>
    const recycleTimeout: nat
    var nextNewKey: u16
    ghost var ledger: Ledger

    /** The two queues end to end are the ledger's queue; those already moved have waited long enough. */
    ghost predicate Valid()
      reads this
    {
      && nextNewKey == ledger.next
      && Timely(ledger)
      && |ledger.queue| == |recycledKeys| + |recyclingKeys|
      && ledger.queue[|recycledKeys|..] == recyclingKeys
      && forall i :: 0 <= i < |recycledKeys| ==>
           ledger.queue[i].key == recycledKeys[i] && Eligible(ledger.queue[i], ledger.clock, recycleTimeout)
    }

    constructor (timeout: nat)
      ensures Valid() && ledger == EMPTY && recycleTimeout == timeout
    {
      recyclingKeys, recycledKeys, recycleTimeout, nextNewKey, ledger := [], [], timeout, 0, EMPTY;
    }

    /** Moves the keys that have waited long enough; end to end the queues do not change. */
    method MoveRecycled(now: nat)
      requires Valid() && ledger.clock <= now
      modifies this`recyclingKeys, this`recycledKeys, this`ledger
      ensures Valid() && ledger == old(ledger).(clock := now)
      ensures recyclingKeys != [] ==> !Eligible(recyclingKeys[0], now, recycleTimeout)
    {
      ledger := ledger.(clock := now);
      while recyclingKeys != []
        invariant Valid() && ledger == old(ledger).(clock := now)
        decreases |recyclingKeys|
      {
        if !Eligible(recyclingKeys[0], now, recycleTimeout) {
          break;
        }
        assert ledger.queue[|recycledKeys|] == recyclingKeys[0];
        assert ledger.queue[|recycledKeys| + 1..] == recyclingKeys[1..];
        recycledKeys := recycledKeys + [recyclingKeys[0].key];
        recyclingKeys := recyclingKeys[1..];
      }
    }

    /** The allocator answers as the simple queue does. */
    method GenerateKey(now: nat) returns (key: Option<u16>)
      requires Valid() && ledger.clock <= now
      modifies this
      ensures Valid() && (ledger, key) == Issue(old(ledger), now, recycleTimeout)
    {
      MoveRecycled(now);
      if recycledKeys != [] {
        key := PopRecycled();
        return;
      }
      assert recyclingKeys == ledger.queue;
      if nextNewKey == 0xFFFF {
        return None;
      }
      key := Some(nextNewKey);
      ledger := ledger.(live := ledger.live + {nextNewKey}, next := nextNewKey + 1);
      nextNewKey := nextNewKey + 1;
    }

    method PopRecycled() returns (key: Option<u16>)
      requires Valid() && recycledKeys != []
      modifies this
      ensures Valid() && (ledger, key) == Issue(old(ledger), old(ledger.clock), recycleTimeout)
    {
      key := Some(recycledKeys[0]);
      assert ledger.queue[1..][|recycledKeys| - 1..] == recyclingKeys;
      recycledKeys := recycledKeys[1..];
      ledger := Issue(ledger, ledger.clock, recycleTimeout).0;
    }

    method RecycleKey(key: u16, now: nat)
      requires Valid() && ledger.clock <= now
      modifies this
      ensures Valid() && ledger == Recycle(old(ledger), key, now)
    {
      recyclingKeys := recyclingKeys + [Waiting(key, now)];
      ledger := Recycle(ledger, key, now);
    }
  }
}

/**
 The client's jitter buffer, `client/src/connection/tick_queue.rs`, and the loop that drains it,
 `client/src/connection/connection.rs`. The heap is a multiset that gives up a greatest item of
 the reversed wrapping order; the standard library promises that much when the order is total.
 */
module TickQueues {
  import opened Options
  import opened Wrapping

  datatype Item<T> = Item(tick: u16, item: T)

  datatype Ordering = Less | Equal | Greater

  /** Reversed: the earlier tick is the greater item. */
  function Cmp<T>(a: Item<T>, b: Item<T>): Ordering {
    if a.tick == b.tick then Equal
    else if SequenceGreaterThan(b.tick, a.tick) then Greater
    else Less
  }

  /** An item whose tick has come. */
  predicate Due<T>(x: Item<T>, now: u16) {
    now == x.tick || SequenceGreaterThan(now, x.tick)
  }

  /** All ticks lie in the half range that starts at `base`. */
  ghost predicate InWindow<T>(q: multiset<Item<T>>, base: u16) {
    forall x :: x in q ==> Ahead(x.tick, base) < HALF
  }

  /** Inside a half-range window the reversed comparison is a total preorder: it compares distances from the base. */
  lemma WindowPreorder<T>(base: u16, a: Item<T>, b: Item<T>)
    requires Ahead(a.tick, base) < HALF && Ahead(b.tick, base) < HALF
    ensures Cmp(a, b) == if Ahead(a.tick, base) < Ahead(b.tick, base) then Greater
                         else if Ahead(a.tick, base) > Ahead(b.tick, base) then Less
                         else Equal
  {
  }

  lemma DueByDistance<T>(base: u16, x: Item<T>, now: u16)
    requires Ahead(x.tick, base) < HALF && Ahead(now, base) < HALF
    ensures Due(x, now) <==> Ahead(x.tick, base) <= Ahead(now, base)
  {
  }

  /** Without the window there may be no greatest item at all. */
  lemma WideSpreadHasNoGreatest<T>(a: T)
    ensures var q := multiset{Item(0, a), Item(30000, a), Item(60000, a)};
            forall x :: x in q ==> exists y :: y in q && Cmp(x, y) == Less
  {
    var q := multiset{Item(0, a), Item(30000, a), Item(60000, a)};
    assert Cmp(Item(30000, a), Item(0, a)) == Less;
    assert Cmp(Item(60000, a), Item(30000, a)) == Less;
    assert Cmp(Item(0, a), Item(60000, a)) == Less;
  }

  predicate Greatest<T(==)>(q: multiset<Item<T>>, x: Item<T>) {
    x in q && forall y :: y in q ==> Cmp(x, y) != Less
  }

  lemma {:induction false} GreatestExists<T>(q: multiset<Item<T>>, base: u16) returns (x: Item<T>)
    requires InWindow(q, base) && q != multiset{}
    ensures Greatest(q, x)
    decreases |q|
  {
    x :| x in q;
    var rest := q - multiset{x};
    assert q == multiset{x} + rest;
    if rest != multiset{} {
      var y := GreatestExists(rest, base);
      WindowPreorder(base, y, x);
      WindowPreorder(base, x, y);
      forall z | z in q ensures Cmp(if Cmp(y, x) == Less then x else y, z) != Less {
        assert z == x || z in rest;
        WindowPreorder(base, x, z);
        WindowPreorder(base, y, z);
      }
      if Cmp(y, x) != Less { x := y; }
    }
  }

  lemma GreatestIsThere<T>(q: multiset<Item<T>>, x: Item<T>)
    requires Greatest(q, x)
    ensures x in q
  {
  }

  // ----- drained sequences -----

  ghost predicate InOrder<T>(s: seq<Item<T>>, base: u16) {
    forall i, j :: 0 <= i < j < |s| ==> Ahead(s[i].tick, base) <= Ahead(s[j].tick, base)
  }

  /** Nothing in `s` comes after anything in `q`. */
  ghost predicate Before<T>(s: seq<Item<T>>, q: multiset<Item<T>>, base: u16) {
    forall i, y :: 0 <= i < |s| && y in q ==> Ahead(s[i].tick, base) <= Ahead(y.tick, base)
  }

  lemma GreatestComesFirst<T>(q: multiset<Item<T>>, x: Item<T>, base: u16)
    requires InWindow(q, base) && Greatest(q, x)
    ensures forall y :: y in q ==> Ahead(x.tick, base) <= Ahead(y.tick, base)
  {
    forall y | y in q ensures Ahead(x.tick, base) <= Ahead(y.tick, base) {
      WindowPreorder(base, x, y);
    }
  }

  /** When the first item of all is not due, none is. */
  lemma NoneDue<T>(q: multiset<Item<T>>, x: Item<T>, now: u16, base: u16)
    requires InWindow(q, base) && Greatest(q, x) && Ahead(now, base) < HALF && !Due(x, now)
    ensures forall y :: y in q ==> !Due(y, now)
  {
    GreatestComesFirst(q, x, base);
    DueByDistance(base, x, now);
    forall y | y in q ensures !Due(y, now) {
      DueByDistance(base, y, now);
    }
  }

  /** What has been read and what is left make up the whole. */
  ghost predicate Conserved<T>(s: seq<Item<T>>, q: multiset<Item<T>>, all: multiset<Item<T>>) {
    multiset(s) + q == all
  }

  lemma TakeOne<T>(s: seq<Item<T>>, q: multiset<Item<T>>, x: Item<T>, base: u16)
    requires InWindow(q, base) && Greatest(q, x) && InOrder(s, base) && Before(s, q, base)
    ensures var s', q' := s + [x], q - multiset{x};
            InOrder(s', base) && Before(s', q', base) && InWindow(q', base)
  {
    GreatestComesFirst(q, x, base);
  }

  lemma ConservesOne<T>(s: seq<Item<T>>, q: multiset<Item<T>>, x: Item<T>, all: multiset<Item<T>>)
    requires x in q && Conserved(s, q, all)
    ensures Conserved(s + [x], q - multiset{x}, all) && |q - multiset{x}| < |q|
  {
  }

  lemma NothingRead<T>(q: multiset<Item<T>>, base: u16)
    ensures InOrder<T>([], base) && Before([], q, base) && Conserved([], q, q)
  {
  }

  // ----- the object -----

  class TickQueue<T(==)> {
    var queue: multiset<Item<T>>
    ghost var added: multiset<Item<T>>
    ghost var read: seq<Item<T>>

    /** Nothing is lost and nothing is invented: all that was added is here or has been read. */
    ghost predicate Valid()
      reads this
    {
      added == multiset(read) + queue
    }

    constructor ()
      ensures Valid() && queue == multiset{} && read == []
    {
      queue, added, read := multiset{}, multiset{}, [];
    }

    method AddItem(tick: u16, item: T)
      requires Valid()
      modifies this
      ensures Valid() && queue == old(queue) + multiset{Item(tick, item)} && read == old(read)
    {
      queue := queue + multiset{Item(tick, item)};
      added := added + multiset{Item(tick, item)};
    }

    /** The heap's root: some item, and a greatest one where the order is total. */
    method Peek(ghost base: u16) returns (x: Option<Item<T>>)
      ensures x.None? <==> queue == multiset{}
      ensures x.Some? ==> x.value in queue
      ensures x.Some? && InWindow(queue, base) ==> Greatest(queue, x.value)
    {
      hide Cmp, InWindow, Greatest;
      if queue == multiset{} {
        return None;
      }
      if InWindow(queue, base) {
        ghost var w := GreatestExists(queue, base);
        GreatestIsThere(queue, w);
      }
      if y :| y in queue && Greatest(queue, y) {
        return Some(y);
      } else {
        var y :| y in queue;
        return Some(y);
      }
    }

    /** Pops an item if its tick has come: a first one, and it refuses only when no tick has, where the order is total. */
    method PopItem(now: u16, ghost base: u16) returns (x: Option<Item<T>>)
      requires Valid()
      modifies this
      ensures Valid()
      ensures x.None? ==> queue == old(queue) && read == old(read)
      ensures x.Some? ==> && Due(x.value, now) && x.value in old(queue)
                          && queue == old(queue) - multiset{x.value} && read == old(read) + [x.value]
      ensures InWindow(old(queue), base) && Ahead(now, base) < HALF ==>
                if x.None? then forall y :: y in queue ==> !Due(y, now) else Greatest(old(queue), x.value)
    {
      x := Peek(base);
      if x.Some? && Due(x.value, now) {
        queue := queue - multiset{x.value};
        read := read + [x.value];
        return;
      }
      if x.Some? && InWindow(queue, base) && Ahead(now, base) < HALF { NoneDue(queue, x.value, now, base); }
      return None;
    }

    /**
     Reads buffered packets until the queue gives none up or one fails to parse. What is read is due. Where the order
     is total it is read in order and not behind anything left, and unless a packet failed, what is left is not due.
     */
    method ReadBufferedPackets(now: u16, parses: Item<T> -> bool, ghost base: u16) returns (out: seq<Item<T>>, failed: bool)
      requires Valid()
      modifies this
      ensures Valid() && read == old(read) + out
      ensures Conserved(out, queue, old(queue))
      ensures forall i :: 0 <= i < |out| ==> Due(out[i], now)
      ensures failed <==> exists i :: 0 <= i < |out| && !parses(out[i])
      ensures failed ==> forall i :: 0 <= i < |out| && !parses(out[i]) ==> i == |out| - 1
      ensures InWindow(old(queue), base) && Ahead(now, base) < HALF ==>
                && InOrder(out, base) && Before(out, queue, base)
                && (!failed ==> forall y :: y in queue ==> !Due(y, now))
    {
      hide Cmp, Due, Ahead, InOrder, Before, InWindow, Greatest, Conserved, TickQueue.Valid;
      ghost var total := InWindow(queue, base) && Ahead(now, base) < HALF;
      out := [];
      NothingRead(queue, base);
      while true
        invariant Valid() && read == old(read) + out
        invariant Conserved(out, queue, old(queue))
        invariant forall i :: 0 <= i < |out| ==> Due(out[i], now) && parses(out[i])
        invariant total ==> InWindow(queue, base) && InOrder(out, base) && Before(out, queue, base)
        decreases |queue|
      {
        ghost var before := queue;
        var x := PopItem(now, base);
        if x.None? {
          return out, false;
        }
        ConservesOne(out, before, x.value, old(queue));
        if total { TakeOne(out, before, x.value, base); }
        out := out + [x.value];
        if !parses(x.value) {
          assert out[|out| - 1] == x.value;
          return out, true;
        }
      }
    }
  }
}

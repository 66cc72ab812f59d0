/**
 A list ordered by wrapping `u16` ids and scanned from the back, `shared/src/sequence_list.rs`.
 The scans stop early, so they are right only while the list is sorted for every pair.
 */
module SequenceLists {
  import opened Options
  import opened Wrapping

  datatype Entry<T> = Entry(id: u16, item: T)

  ghost predicate Sorted<T>(l: seq<Entry<T>>) {
    forall i, j :: 0 <= i < j < |l| ==> SequenceLessThan(l[i].id, l[j].id)
  }

  /** Unordered search. */
  ghost predicate Has<T>(l: seq<Entry<T>>, id: u16) {
    exists i :: 0 <= i < |l| && l[i].id == id
  }

  /** The place just after the last entry that is not later than `id`. */
  function Slot<T>(l: seq<Entry<T>>, id: u16): (n: nat)
    ensures n <= |l|
    ensures n > 0 ==> l[n - 1].id == id || SequenceLessThan(l[n - 1].id, id)
    ensures forall k :: n <= k < |l| ==> SequenceLessThan(id, l[k].id)
  {
    if l == [] then 0
    else if l[|l| - 1].id == id || SequenceLessThan(l[|l| - 1].id, id) then |l|
    else Slot(l[..|l| - 1], id)
  }

  lemma SlotStep<T>(l: seq<Entry<T>>, id: u16, index: nat)
    requires index < |l|
    ensures Slot(l[..index + 1], id) ==
            if l[index].id == id || SequenceLessThan(l[index].id, id) then index + 1 else Slot(l[..index], id)
  {
    assert l[..index + 1][..index] == l[..index];
  }

  function Inserted<T>(l: seq<Entry<T>>, id: u16, item: T): seq<Entry<T>> {
    l[..Slot(l, id)] + [Entry(id, item)] + l[Slot(l, id)..]
  }

  /** In a sorted list one look decides: the id is where the backward scan stops, or nowhere. */
  lemma FoundAtSlot<T>(l: seq<Entry<T>>, id: u16)
    requires Sorted(l)
    ensures Has(l, id) <==> Slot(l, id) > 0 && l[Slot(l, id) - 1].id == id
    ensures forall i :: 0 <= i < |l| && l[i].id == id ==> i == Slot(l, id) - 1
  {
    var n := Slot(l, id);
    forall i | 0 <= i < |l| && l[i].id == id ensures i == n - 1 {
      if i != n - 1 { StopsAt(l, id, i); }
    }
  }

  lemma StopsAt<T>(l: seq<Entry<T>>, id: u16, i: nat)
    requires Sorted(l) && i < |l| && l[i].id == id
    ensures i == Slot(l, id) - 1
  {
    if Slot(l, id) > 0 { InOrder(l, i, Slot(l, id) - 1); }
  }

  lemma InOrder<T>(l: seq<Entry<T>>, i: nat, j: nat)
    requires Sorted(l) && i < |l| && j < |l|
    ensures i < j ==> SequenceLessThan(l[i].id, l[j].id)
  {
  }

  /** No entry before one that is earlier than `id` may itself be later than `id`. */
  ghost predicate Splits<T>(l: seq<Entry<T>>, id: u16) {
    forall i, j :: 0 <= i < j < |l| && SequenceLessThan(l[j].id, id) ==> SequenceLessThan(l[i].id, id)
  }

  lemma InsertedAt<T>(l: seq<Entry<T>>, id: u16, item: T)
    ensures var n, l' := Slot(l, id), Inserted(l, id, item);
            && |l'| == |l| + 1
            && (forall k :: 0 <= k < n ==> l'[k] == l[k])
            && l'[n] == Entry(id, item)
            && (forall k :: n <= k < |l| ==> l'[k + 1] == l[k])
  {
    hide SequenceLessThan, Slot;
    var n, l' := Slot(l, id), Inserted(l, id, item);
    assert l'[..n] == l[..n] && l'[n] == Entry(id, item) && l'[n + 1..] == l[n..];
    forall k | n <= k < |l| ensures l'[k + 1] == l[k] {
      assert l'[n + 1..][k - n] == l[n..][k - n];
    }
  }

  /** Exactly when an insertion leaves the list sorted. */
  lemma InsertKeepsSortedIff<T>(l: seq<Entry<T>>, id: u16, item: T)
    requires Sorted(l) && !Has(l, id)
    ensures Sorted(Inserted(l, id, item)) <==> Splits(l, id)
  {
    if Sorted(Inserted(l, id, item)) { SortedSplits(l, id, item); }
    if Splits(l, id) { SplitSorts(l, id, item); }
  }

  lemma SortedSplits<T>(l: seq<Entry<T>>, id: u16, item: T)
    requires Sorted(Inserted(l, id, item))
    ensures Splits(l, id)
  {
    hide SequenceLessThan, Inserted;
    var n, l' := Slot(l, id), Inserted(l, id, item);
    InsertedAt(l, id, item);
    forall i, j | 0 <= i < j < |l| && SequenceLessThan(l[j].id, id) ensures SequenceLessThan(l[i].id, id) {
      NotBoth(l[j].id, id);
      assert j < n && l'[i] == l[i];
      assert SequenceLessThan(l'[i].id, l'[n].id);
    }
  }

  lemma NotBoth(a: u16, b: u16)
    ensures !(SequenceLessThan(a, b) && SequenceLessThan(b, a))
  {
  }

  lemma SplitSorts<T>(l: seq<Entry<T>>, id: u16, item: T)
    requires Sorted(l) && !Has(l, id) && Splits(l, id)
    ensures Sorted(Inserted(l, id, item))
  {
    hide SequenceLessThan, Inserted;
    var n, l' := Slot(l, id), Inserted(l, id, item);
    InsertedAt(l, id, item);
    forall i, j | 0 <= i < j < |l'| ensures SequenceLessThan(l'[i].id, l'[j].id) {
      var i0, j0 := if i < n then i else i - 1, if j < n then j else j - 1;
      if i == n {
        assert l'[j] == l[j0];
      } else if j == n {
        assert l[n - 1].id != id && SequenceLessThan(l[n - 1].id, id);
        assert l'[i] == l[i] && SequenceLessThan(l[i].id, id);
      } else {
        assert l'[i] == l[i0] && l'[j] == l[j0];
      }
    }
  }

  /** The order has cycles, so some insertion into a sorted list unsorts it, and the scan then misses an entry. */
  lemma WideSpreadLosesEntries<T>(a: T, b: T, c: T)
    ensures var l := Inserted([Entry(0, a), Entry(30000, b)], 60000, c);
            !Sorted(l) && Has(l, 0) && !(Slot(l, 0) > 0 && l[Slot(l, 0) - 1].id == 0)
  {
    var l2 := [Entry(0, a), Entry(30000, b)];
    var l := Inserted(l2, 60000, c);
    assert Slot(l2, 60000) == 2;
    assert l == [Entry(0, a), Entry(30000, b), Entry(60000, c)];
    assert SequenceLessThan(l[2].id, 0) && !SequenceLessThan(l[0].id, l[2].id);
    assert l[0].id == 0;
    assert Slot(l, 0) == 3;
  }

  lemma AboutToInsert<T>(l: seq<Entry<T>>, id: u16, item: T)
    requires Sorted(l)
    ensures Has(l, id) <==> Slot(l, id) > 0 && l[Slot(l, id) - 1].id == id
    ensures !Has(l, id) ==> (Sorted(Inserted(l, id, item)) <==> Splits(l, id))
  {
    FoundAtSlot(l, id);
    if !Has(l, id) { InsertKeepsSortedIff(l, id, item); }
  }

  // ----- the object -----

  class SequenceList<T> {
    var list: seq<Entry<T>>

    constructor ()
      ensures list == []
    {
      list := [];
    }

    method PopFront() returns (panicked: bool, front: Option<Entry<T>>)
      modifies this
      ensures panicked == (old(list) == [])
      ensures !panicked ==> front.Some? && old(list) == [front.value] + list
      ensures Sorted(old(list)) ==> Sorted(list)
    {
      if list == [] {
        return true, None;
      }
      panicked, front := false, Some(list[0]);
      list := list[1..];
    }

    method ContainsScanFromBack(id: u16) returns (found: bool)
      ensures Sorted(list) ==> (found <==> Has(list, id))
      ensures found == (Slot(list, id) > 0 && list[Slot(list, id) - 1].id == id)
    {
      hide SequenceLessThan, Sorted, Has, Slot;
      if Sorted(list) { FoundAtSlot(list, id); }
      var index := |list|;
      assert list[..index] == list;
      while index > 0
        invariant 0 <= index <= |list|
        invariant Slot(list, id) == Slot(list[..index], id)
      {
        index := index - 1;
        SlotStep(list, id, index);
        if list[index].id == id {
          return true;
        }
        if SequenceLessThan(list[index].id, id) {
          return false;
        }
      }
      return false;
    }

    /** The entry handed out for writing is the only one with that id. */
    method GetMutScanFromBack(id: u16) returns (place: Option<nat>)
      ensures place.Some? ==> place.value < |list| && list[place.value].id == id
      ensures Sorted(list) ==> (place.None? <==> !Has(list, id))
      ensures Sorted(list) && place.Some? ==> forall i :: 0 <= i < |list| && list[i].id == id ==> i == place.value
    {
      hide SequenceLessThan, Sorted, Has, Slot;
      if Sorted(list) { FoundAtSlot(list, id); }
      var index := |list|;
      assert list[..index] == list;
      while true
        invariant 0 <= index <= |list|
        invariant Slot(list, id) == Slot(list[..index], id)
        decreases index
      {
        if index == 0 {
          return None;
        }
        index := index - 1;
        SlotStep(list, id, index);
        if list[index].id == id {
          break;
        }
        if SequenceLessThan(list[index].id, id) {
          return None;
        }
      }
      return Some(index);
    }

    method InsertScanFromBack(id: u16, item: T) returns (panicked: bool)
      modifies this
      ensures panicked ==> list == old(list)
      ensures !panicked ==> list == Inserted(old(list), id, item)
      ensures Sorted(old(list)) ==> panicked == Has(old(list), id)
      ensures Sorted(old(list)) && !panicked ==> (Sorted(list) <==> Splits(old(list), id))
    {
      hide SequenceLessThan, Sorted, Has, Splits, Slot;
      if Sorted(list) { AboutToInsert(list, id, item); }
      var index := |list|;
      assert list[..index] == list;
      while index > 0
        invariant 0 <= index <= |list|
        invariant list == old(list)
        invariant Slot(list, id) == Slot(list[..index], id)
      {
        index := index - 1;
        SlotStep(list, id, index);
        if list[index].id == id {
          return true;
        }
        if SequenceLessThan(list[index].id, id) {
          list := list[..index + 1] + [Entry(id, item)] + list[index + 1..];
          return false;
        }
      }
      list := list[..index] + [Entry(id, item)] + list[index..];
      return false;
    }

    method RemoveScanFromFront(id: u16) returns (removed: Option<T>)
      modifies this
      ensures removed.None? <==> !Has(old(list), id)
      ensures list == Removed(old(list), id)
      ensures removed.Some? ==> exists i :: 0 <= i < |old(list)| && old(list)[i] == Entry(id, removed.value)
      ensures Sorted(old(list)) ==> Sorted(list) && !Has(list, id)
    {
      var index := 0;
      while index < |list|
        invariant 0 <= index <= |list| && list == old(list)
        invariant forall k :: 0 <= k < index ==> list[k].id != id
      {
        if list[index].id == id {
          RemovedAt(list, id, index);
          removed := Some(list[index].item);
          assert list[index] == Entry(id, removed.value);
          list := list[..index] + list[index + 1..];
          return;
        }
        index := index + 1;
      }
      NothingRemoved(list, id);
      return None;
    }
  }

  /** Without the first entry that carries the id. */
  function Removed<T>(l: seq<Entry<T>>, id: u16): seq<Entry<T>> {
    if l == [] then [] else if l[0].id == id then l[1..] else [l[0]] + Removed(l[1..], id)
  }

  lemma RemovedAt<T>(l: seq<Entry<T>>, id: u16, n: nat)
    requires n < |l| && l[n].id == id && forall k :: 0 <= k < n ==> l[k].id != id
    ensures Removed(l, id) == l[..n] + l[n + 1..]
    ensures Sorted(l) ==> Sorted(Removed(l, id)) && !Has(Removed(l, id), id)
  {
    RemovedPlace(l, id, n);
    if Sorted(l) { OmitSorted(l, n); }
  }

  lemma OmitSorted<T>(l: seq<Entry<T>>, n: nat)
    requires n < |l| && Sorted(l)
    ensures var r := l[..n] + l[n + 1..]; Sorted(r) && !Has(r, l[n].id)
  {
    hide SequenceGreaterThan;
    var r := l[..n] + l[n + 1..];
    forall i, j | 0 <= i < j < |r| ensures SequenceLessThan(r[i].id, r[j].id) {
      assert r[i] == (if i < n then l[i] else l[i + 1]) && r[j] == (if j < n then l[j] else l[j + 1]);
    }
    forall k | 0 <= k < |r| ensures r[k].id != l[n].id {
      if k < n {
        Irreflexive(l[k].id, l[n].id);
      } else {
        Irreflexive(l[n].id, l[k + 1].id);
      }
    }
  }

  lemma Irreflexive(a: u16, b: u16)
    ensures SequenceLessThan(a, b) ==> a != b
  {
  }

  lemma {:induction false} RemovedPlace<T>(l: seq<Entry<T>>, id: u16, n: nat)
    requires n < |l| && l[n].id == id && forall k :: 0 <= k < n ==> l[k].id != id
    ensures Removed(l, id) == l[..n] + l[n + 1..]
  {
    if n > 0 {
      RemovedPlace(l[1..], id, n - 1);
      assert l[1..][..n - 1] == l[1..n] && l[1..][n..] == l[n + 1..];
      assert l[..n] == [l[0]] + l[1..n];
    }
  }

  lemma {:induction false} NothingRemoved<T>(l: seq<Entry<T>>, id: u16)
    requires forall k :: 0 <= k < |l| ==> l[k].id != id
    ensures Removed(l, id) == l
  {
    if l != [] { NothingRemoved(l[1..], id); }
  }

  // ----- the list as a plain map of unbounded ids -----

  /** The list shows exactly the map's entries, in ascending order of their unbounded ids, all within half range. */
  ghost predicate Shows<T>(l: seq<Entry<T>>, ids: seq<int>, m: map<int, T>) {
    && |ids| == |l|
    && (forall i :: 0 <= i < |l| ==> ids[i] in m && l[i] == Entry(Wrap(ids[i]), m[ids[i]]))
    && (forall i, j :: 0 <= i < j < |ids| ==> 0 < ids[j] - ids[i] < HALF)
    && (forall k :: k in m ==> k in ids)
  }

  /** Close enough to every id present to be compared with it. */
  ghost predicate Near<T>(m: map<int, T>, id: int) {
    forall k :: k in m ==> -HALF < k - id < HALF
  }

  lemma ShownIsSorted<T>(l: seq<Entry<T>>, ids: seq<int>, m: map<int, T>)
    requires Shows(l, ids, m)
    ensures Sorted(l)
  {
    forall i, j | 0 <= i < j < |l| ensures SequenceLessThan(l[i].id, l[j].id) {
      WindowOrder(ids[i], ids[j]);
    }
  }

  lemma ShownHas<T>(l: seq<Entry<T>>, ids: seq<int>, m: map<int, T>, id: int)
    requires Shows(l, ids, m) && Near(m, id)
    ensures Has(l, Wrap(id)) <==> id in m
  {
    forall i | 0 <= i < |l| ensures l[i].id == Wrap(id) <==> ids[i] == id {
      WindowOrder(ids[i], id);
    }
  }

  lemma SlotByOrder<T>(l: seq<Entry<T>>, ids: seq<int>, m: map<int, T>, id: int, i: nat)
    requires Shows(l, ids, m) && Near(m, id) && id !in m && i < |l|
    ensures i < Slot(l, Wrap(id)) <==> ids[i] < id
  {
    hide SequenceLessThan, Wrap;
    var n := Slot(l, Wrap(id));
    WindowOrder(ids[i], id);
    WindowOrder(id, ids[i]);
    if i < n { WindowOrder(ids[n - 1], id); }
  }

  lemma InsertShows<T>(l: seq<Entry<T>>, ids: seq<int>, m: map<int, T>, id: int, item: T) returns (ids': seq<int>)
    requires Shows(l, ids, m) && Near(m, id) && id !in m
    ensures Shows(Inserted(l, Wrap(id), item), ids', m[id := item])
  {
    hide SequenceLessThan, Wrap, Inserted;
    var n := Slot(l, Wrap(id));
    ids' := ids[..n] + [id] + ids[n..];
    forall i | 0 <= i < |l| ensures i < n <==> ids[i] < id {
      SlotByOrder(l, ids, m, id, i);
    }
    InsertCovers(ids, m, id, item, n);
    InsertAscends(ids, id, n);
    InsertEntries(l, ids, m, id, item);
  }

  lemma InsertEntries<T>(l: seq<Entry<T>>, ids: seq<int>, m: map<int, T>, id: int, item: T)
    requires Shows(l, ids, m) && id !in m
    ensures var n, l' := Slot(l, Wrap(id)), Inserted(l, Wrap(id), item);
            var ids' := ids[..n] + [id] + ids[n..];
            && |ids'| == |l'|
            && forall i :: 0 <= i < |l'| ==> ids'[i] in m[id := item] && l'[i] == Entry(Wrap(ids'[i]), m[id := item][ids'[i]])
  {
    hide SequenceLessThan, Wrap, Inserted, Slot;
    InsertedAt(l, Wrap(id), item);
    var n, l' := Slot(l, Wrap(id)), Inserted(l, Wrap(id), item);
    var ids' := ids[..n] + [id] + ids[n..];
    forall i | 0 <= i < |l'| ensures ids'[i] in m[id := item] && l'[i] == Entry(Wrap(ids'[i]), m[id := item][ids'[i]]) {
      if i > n { assert l'[i - 1 + 1] == l[i - 1] && ids'[i] == ids[i - 1]; }
    }
  }

  lemma InsertAscends(ids: seq<int>, id: int, n: nat)
    requires n <= |ids| && forall i, j :: 0 <= i < j < |ids| ==> 0 < ids[j] - ids[i] < HALF
    requires forall i :: 0 <= i < |ids| ==> -HALF < ids[i] - id < HALF && ids[i] != id && (i < n <==> ids[i] < id)
    ensures var ids' := ids[..n] + [id] + ids[n..];
            forall i, j :: 0 <= i < j < |ids'| ==> 0 < ids'[j] - ids'[i] < HALF
  {
    var ids' := ids[..n] + [id] + ids[n..];
    forall i, j | 0 <= i < j < |ids'| ensures 0 < ids'[j] - ids'[i] < HALF {
      assert ids'[i] == if i < n then ids[i] else if i == n then id else ids[i - 1];
      assert ids'[j] == if j < n then ids[j] else if j == n then id else ids[j - 1];
    }
  }

  lemma InsertCovers<T>(ids: seq<int>, m: map<int, T>, id: int, item: T, n: nat)
    requires n <= |ids| && forall k :: k in m ==> k in ids
    ensures forall k :: k in m[id := item] ==> k in ids[..n] + [id] + ids[n..]
  {
    var ids' := ids[..n] + [id] + ids[n..];
    forall k | k in m[id := item] ensures k in ids' {
      if k == id {
        assert ids'[n] == k;
      } else {
        var i :| 0 <= i < |ids| && ids[i] == k;
        assert ids'[if i < n then i else i + 1] == k;
      }
    }
  }

  lemma RemoveShows<T>(l: seq<Entry<T>>, ids: seq<int>, m: map<int, T>, id: int) returns (ids': seq<int>)
    requires Shows(l, ids, m) && Near(m, id)
    ensures Shows(Removed(l, Wrap(id)), ids', m - {id})
  {
    hide Wrap, SequenceLessThan;
    forall i | 0 <= i < |l| ensures l[i].id == Wrap(id) <==> ids[i] == id {
      WindowOrder(ids[i], id);
    }
    if id in m {
      var n :| 0 <= n < |ids| && ids[n] == id;
      RemovedPlace(l, Wrap(id), n);
      ids' := ids[..n] + ids[n + 1..];
      OmitShows(l, ids, m, n);
    } else {
      NothingRemoved(l, Wrap(id));
      ids' := ids;
      assert m - {id} == m;
    }
  }

  lemma OmitShows<T>(l: seq<Entry<T>>, ids: seq<int>, m: map<int, T>, n: nat)
    requires Shows(l, ids, m) && n < |l|
    ensures Shows(l[..n] + l[n + 1..], ids[..n] + ids[n + 1..], m - {ids[n]})
  {
    hide Wrap;
    var l', ids' := l[..n] + l[n + 1..], ids[..n] + ids[n + 1..];
    OmitAscends(ids, n);
    forall k | k in m - {ids[n]} ensures k in ids' {
      var i :| 0 <= i < |ids| && ids[i] == k;
      assert ids'[if i < n then i else i - 1] == k;
    }
    forall i | 0 <= i < |l'| ensures ids'[i] in m && ids'[i] != ids[n] && l'[i] == Entry(Wrap(ids'[i]), m[ids'[i]]) {
      assert i < n ==> ids[i] < ids[n];
      assert i >= n ==> l'[i] == l[i + 1] && ids'[i] == ids[i + 1] > ids[n];
    }
  }

  lemma OmitAscends(ids: seq<int>, n: nat)
    requires n < |ids| && forall i, j :: 0 <= i < j < |ids| ==> 0 < ids[j] - ids[i] < HALF
    ensures var ids' := ids[..n] + ids[n + 1..];
            forall i, j :: 0 <= i < j < |ids'| ==> 0 < ids'[j] - ids'[i] < HALF
  {
  }

  lemma PopShows<T>(l: seq<Entry<T>>, ids: seq<int>, m: map<int, T>)
    requires Shows(l, ids, m) && l != []
    ensures |ids| == |l| && Least(m, ids[0])
    ensures Shows(l[1..], ids[1..], m - {ids[0]})
  {
    forall k | k in m ensures ids[0] <= k && (k != ids[0] ==> k in ids[1..]) {
      var i :| 0 <= i < |ids| && ids[i] == k;
      if i > 0 { assert ids[1..][i - 1] == k; }
    }
  }

  datatype Op<T> = Insert(id: int, item: T) | Remove(id: int) | PopFront

  datatype Outcome<T> = Running(list: seq<Entry<T>>) | Panicked

  /** What the object does, on wrapped ids; a run ends at its first panic. */
  ghost function Step<T>(l: seq<Entry<T>>, op: Op<T>): Outcome<T> {
    match op
    case Insert(id, item) => if Has(l, Wrap(id)) then Panicked else Running(Inserted(l, Wrap(id), item))
    case Remove(id) => Running(Removed(l, Wrap(id)))
    case PopFront => if l == [] then Panicked else Running(l[1..])
  }

  ghost function Run<T>(ops: seq<Op<T>>): Outcome<T> {
    if ops == [] then Running([])
    else
      match Run(ops[..|ops| - 1])
      case Running(l) => Step(l, ops[|ops| - 1])
      case Panicked => Panicked
  }

  ghost predicate Least<T>(m: map<int, T>, id: int) {
    id in m && forall k :: k in m ==> id <= k
  }

  /** What the caller sees on unbounded ids: a map, out of which `PopFront` takes the least id. */
  ghost function Plain<T>(ops: seq<Op<T>>): map<int, T> {
    if ops == [] then map[]
    else
      var m := Plain(ops[..|ops| - 1]);
      match ops[|ops| - 1]
      case Insert(id, item) => m[id := item]
      case Remove(id) => m - {id}
      case PopFront => map k | k in m && !Least(m, k) :: m[k]
  }

  /** Every id used is within half range of the ids then present. */
  ghost predicate Windowed<T>(ops: seq<Op<T>>) {
    forall n :: 0 <= n < |ops| && !ops[n].PopFront? ==> Near(Plain(ops[..n]), ops[n].id)
  }

  lemma StepShows<T>(l: seq<Entry<T>>, ids: seq<int>, before: seq<Op<T>>, op: Op<T>) returns (ids': seq<int>)
    requires Shows(l, ids, Plain(before)) && Step(l, op).Running?
    requires !op.PopFront? ==> Near(Plain(before), op.id)
    ensures Shows(Step(l, op).list, ids', Plain(before + [op]))
  {
    hide Wrap, Shows, Inserted;
    assert (before + [op])[..|before|] == before;
    var m := Plain(before);
    match op
    case Insert(id, item) =>
      ShownHas(l, ids, m, id);
      ids' := InsertShows(l, ids, m, id, item);
    case Remove(id) =>
      ids' := RemoveShows(l, ids, m, id);
    case PopFront =>
      PopShows(l, ids, m);
      assert Plain(before + [op]) == m - {ids[0]} by { LeastIsUnique(m, ids[0]); }
      ids' := ids[1..];
  }

  lemma LeastIsUnique<T>(m: map<int, T>, id: int)
    requires Least(m, id)
    ensures (map k | k in m && !Least(m, k) :: m[k]) == m - {id}
  {
    assert forall k :: Least(m, k) ==> k == id;
  }

  /** Over every windowed run that has not panicked the list is the plain map, sorted. */
  lemma {:induction false} EveryRunShowsPlainMap<T>(ops: seq<Op<T>>) returns (ids: seq<int>)
    requires Windowed(ops) && Run(ops).Running?
    ensures Shows(Run(ops).list, ids, Plain(ops)) && Sorted(Run(ops).list)
  {
    ids := [];
    if ops != [] {
      var n := |ops| - 1;
      var before, op := ops[..n], ops[n];
      assert forall k :: 0 <= k < n ==> before[..k] == ops[..k];
      ids := EveryRunShowsPlainMap(before);
      ids := StepShows(Run(before).list, ids, before, op);
      assert before + [op] == ops;
    }
    ShownIsSorted(Run(ops).list, ids, Plain(ops));
  }

  /** Within the window a run panics only by inserting an id that is present or popping when nothing is. */
  lemma {:induction false} PanicsOnlyOnMisuse<T>(ops: seq<Op<T>>, op: Op<T>)
    requires Windowed(ops + [op]) && Run(ops).Running?
    ensures Run(ops + [op]).Panicked? <==>
            (op.Insert? && op.id in Plain(ops)) || (op.PopFront? && Plain(ops) == map[])
  {
    var all := ops + [op];
    assert all[..|ops|] == ops;
    assert forall k :: 0 <= k < |ops| ==> ops[..k] == all[..k] && ops[k] == all[k];
    var ids := EveryRunShowsPlainMap(ops);
    var l, m := Run(ops).list, Plain(ops);
    if op.Insert? { assert all[|ops|] == op; ShownHas(l, ids, m, op.id); }
    if l != [] { assert ids[0] in m; } else { assert forall k :: k !in m; }
  }
}

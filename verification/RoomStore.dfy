/**
 The objects behind `Rooms`: a room with its removal queue (`server/src/room.rs`),
 the entity-room index, the user store, the scope-checks cache and the room store
 whose methods update all of them step by step.
 */
module RoomStores {
  import opened Rooms

  /** Visits a hash set in some order. */
  method Elements<T(==)>(s: set<T>) returns (q: seq<T>)
    ensures forall x :: x in q <==> x in s
    ensures forall i, j :: 0 <= i < j < |q| ==> q[i] != q[j]
  {
    q := [];
    var left := s;
    while left != {}
      invariant left <= s
      invariant forall x :: x in q ==> x !in left
      invariant forall i, j :: 0 <= i < j < |q| ==> q[i] != q[j]
      invariant forall x :: x in s <==> x in left || x in q
      decreases |left|
    {
      var x :| x in left;
      left := left - {x};
      q := q + [x];
    }
  }

  // ----- a room -----

  class Room {
    var users: set<UserKey>
    var entities: set<GlobalEntity>
    var removalQueue: seq<(UserKey, GlobalEntity)>
    // pairs that left the users x entities product other than by a despawn, and those handed out since they last left
    ghost var departed: set<(UserKey, GlobalEntity)>
    ghost var popped: set<(UserKey, GlobalEntity)>

    /** No removal is lost: whatever departed is queued or has been handed out. */
    ghost predicate Valid()
      reads this
    {
      forall p :: p in departed ==> p in removalQueue || p in popped
    }

    /** What departed and has not been handed out is owed; by `Valid` it is queued. */
    ghost function View(): RoomView
      reads this
    {
      RoomView(users, entities, departed - popped)
    }

    constructor ()
      ensures Valid() && View() == EMPTY_ROOM && removalQueue == [] && departed == {} && popped == {}
    {
      users, entities, removalQueue, departed, popped := {}, {}, [], {}, {};
    }

    method SubscribeUser(u: UserKey)
      requires Valid()
      modifies this
      ensures Valid() && View() == old(View()).(users := old(users) + {u})
      ensures removalQueue == old(removalQueue) && departed == old(departed) && popped == old(popped)
    {
      users := users + {u};
    }

    method UnsubscribeUser(u: UserKey)
      requires Valid()
      modifies this
      ensures Valid() && View() == Vacated(old(View()), u)
      ensures var leaving := set e | e in entities :: (u, e);
              && departed == old(departed) + leaving && popped == old(popped) - leaving
              && old(removalQueue) <= removalQueue
              && forall k :: |old(removalQueue)| <= k < |removalQueue| ==> removalQueue[k] in leaving
    {
      users := users - {u};
      var order := Elements(entities);
      for i := 0 to |order|
        invariant old(removalQueue) <= removalQueue && |removalQueue| == |old(removalQueue)| + i
        invariant forall k :: |old(removalQueue)| <= k < |removalQueue| ==> removalQueue[k] == (u, order[k - |old(removalQueue)|])
        invariant users == old(users) - {u} && entities == old(entities) && departed == old(departed) && popped == old(popped)
      {
        removalQueue := removalQueue + [(u, order[i])];
      }
      ghost var leaving := set e | e in entities :: (u, e);
      departed, popped := departed + leaving, popped - leaving;
      assert leaving == Pairs({u}, entities);
      forall p | p in leaving ensures p in removalQueue {
        var k :| 0 <= k < |order| && order[k] == p.1;
        assert removalQueue[|old(removalQueue)| + k] == p;
      }
      forall k | |old(removalQueue)| <= k < |removalQueue| ensures removalQueue[k] in leaving {
        var e := order[k - |old(removalQueue)|];
        assert e in order && e in entities;
        assert removalQueue[k] == (u, e);
      }
    }

    method AddEntity(g: GlobalEntity)
      requires Valid()
      modifies this
      ensures Valid() && View() == old(View()).(entities := old(entities) + {g})
      ensures removalQueue == old(removalQueue) && departed == old(departed) && popped == old(popped)
    {
      entities := entities + {g};
    }

    /** The flag is false where the source panics: the room does not contain the entity. */
    method RemoveEntity(g: GlobalEntity, despawned: bool) returns (ok: bool)
      requires Valid()
      modifies this
      ensures ok == (g in old(entities))
      ensures Valid()
      ensures View() == if ok && !despawned then Relieved(old(View()), {g}) else old(View()).(entities := old(entities) - {g})
      ensures var leaving := if ok && !despawned then set u | u in users :: (u, g) else {};
              && departed == old(departed) + leaving && popped == old(popped) - leaving
              && old(removalQueue) <= removalQueue
              && forall k :: |old(removalQueue)| <= k < |removalQueue| ==> removalQueue[k] in leaving
    {
      if g !in entities {
        assert entities - {g} == entities;
        return false;
      }
      entities := entities - {g};
      if !despawned {
        var order := Elements(users);
        for i := 0 to |order|
          invariant old(removalQueue) <= removalQueue && |removalQueue| == |old(removalQueue)| + i
          invariant forall k :: |old(removalQueue)| <= k < |removalQueue| ==> removalQueue[k] == (order[k - |old(removalQueue)|], g)
          invariant users == old(users) && entities == old(entities) - {g} && departed == old(departed) && popped == old(popped)
        {
          removalQueue := removalQueue + [(order[i], g)];
        }
        ghost var leaving := set u | u in users :: (u, g);
        assert leaving == Pairs(users, {g});
        departed, popped := departed + leaving, popped - leaving;
        forall p | p in leaving ensures p in removalQueue {
          var k :| 0 <= k < |order| && order[k] == p.0;
          assert removalQueue[|old(removalQueue)| + k] == p;
        }
      }
      return true;
    }

    method PopEntityRemovalQueue() returns (found: bool, pair: (UserKey, GlobalEntity))
      requires Valid()
      modifies this
      ensures Valid() && departed == old(departed)
      ensures View() == if found then old(View()).(owed := old(View()).owed - {pair}) else old(View())
      ensures found == (old(removalQueue) != [])
      ensures found ==> removalQueue == old(removalQueue)[1..] && pair == old(removalQueue)[0] && popped == old(popped) + {pair}
      ensures !found ==> removalQueue == [] && popped == old(popped)
    {
      if removalQueue == [] {
        return false, (0, 0);
      }
      found, pair := true, removalQueue[0];
      removalQueue := removalQueue[1..];
      popped := popped + {pair};
    }
  }

  /** Every removal queued in a room is handed out, oldest first. */
  method DrainRemovals(room: Room) returns (out: seq<(UserKey, GlobalEntity)>)
    requires room.Valid()
    modifies room
    ensures room.Valid() && room.View() == old(room.View()).(owed := {}) && room.removalQueue == []
    ensures out == old(room.removalQueue) && forall p :: p in old(room.View()).owed ==> p in out
  {
    out := [];
    while room.removalQueue != []
      invariant room.Valid() && room.departed == old(room.departed)
      invariant room.users == old(room.users) && room.entities == old(room.entities)
      invariant out + room.removalQueue == old(room.removalQueue)
      decreases |room.removalQueue|
    {
      var found, pair := room.PopEntityRemovalQueue();
      out := out + [pair];
    }
  }

  // ----- the indexes -----

  class EntityRoomMap {
    var index: map<GlobalEntity, set<RoomKey>>

    constructor ()
      ensures index == map[]
    {
      index := map[];
    }

    method EntityAddRoom(g: GlobalEntity, r: RoomKey)
      modifies this
      ensures index == RoomAdded(old(index), g, r)
    {
      if g !in index {
        index := index[g := {}];
      }
      index := index[g := index[g] + {r}];
    }

    method RemoveFromRoom(g: GlobalEntity, r: RoomKey)
      modifies this
      ensures index == RoomRemoved(old(index), g, r)
    {
      var delete := false;
      if g in index {
        index := index[g := index[g] - {r}];
        delete := index[g] == {};
      }
      if delete {
        index := index - {g};
      }
    }

    /** `None` is returned for an entity in no room; `rooms` is then empty. */
    method RemoveFromAllRooms(g: GlobalEntity) returns (rooms: seq<RoomKey>)
      modifies this
      ensures index == old(index) - {g}
      ensures forall r :: r in rooms <==> g in old(index) && r in old(index)[g]
      ensures forall i, j :: 0 <= i < j < |rooms| ==> rooms[i] != rooms[j]
    {
      rooms := [];
      if g in index {
        rooms := Elements(index[g]);
        index := index - {g};
      } else {
        assert index - {g} == index;
      }
    }
  }

  /** Each user's `rooms_cache`. */
  class UserStore {
    var users: map<UserKey, set<RoomKey>>

    constructor ()
      ensures users == map[]
    {
      users := map[];
    }

    method CacheRoom(u: UserKey, r: RoomKey)
      requires u in users
      modifies this
      ensures users == old(users)[u := old(users)[u] + {r}]
    {
      users := users[u := users[u] + {r}];
    }

    method Drop(u: UserKey)
      modifies this
      ensures users == old(users) - {u}
    {
      users := users - {u};
    }

    method UncacheRoom(u: UserKey, r: RoomKey)
      requires u in users
      modifies this
      ensures users == old(users)[u := old(users)[u] - {r}]
    {
      users := users[u := users[u] - {r}];
    }
  }

  // ----- the cache -----

  ghost function Set(q: seq<Tuple>): set<Tuple> {
    set t | t in q
  }

  class ScopeChecksCache {
    var tuples: seq<Tuple>
    var pending: seq<Tuple>
    // tuples present ever since the pending ones were last marked handled
    ghost var settled: set<Tuple>

    /** No scope check is lost: a tuple is pending unless it has been there since the last handled mark. */
    ghost predicate Valid()
      reads this
    {
      Set(pending) <= Set(tuples) && settled <= Set(tuples) && Set(tuples) == Set(pending) + settled
    }

    constructor ()
      ensures Valid() && tuples == [] && pending == [] && settled == {}
    {
      tuples, pending, settled := [], [], {};
    }

    method MarkPendingHandled()
      requires Valid()
      modifies this
      ensures Valid() && tuples == old(tuples) && pending == [] && settled == Set(tuples)
    {
      pending := [];
      settled := Set(tuples);
    }

    method MarkAllPending()
      requires Valid()
      modifies this
      ensures Valid() && tuples == old(tuples) && pending == tuples && settled == old(settled)
    {
      pending := tuples;
    }

    /** The two pushes every added tuple gets. */
    method Push(t: Tuple)
      requires Valid()
      modifies this
      ensures Valid() && settled == old(settled)
      ensures Set(tuples) == Set(old(tuples)) + {t} && Set(pending) == Set(old(pending)) + {t}
    {
      tuples := tuples + [t];
      pending := pending + [t];
      assert Set(tuples) == Set(old(tuples)) + {t};
      assert Set(pending) == Set(old(pending)) + {t};
    }

    method OnUserAddedToRoom(r: RoomKey, u: UserKey, entities: seq<Entity>)
      requires Valid()
      modifies this
      ensures Valid() && settled == old(settled)
      ensures var added := set e | e in entities :: Tuple(r, u, e);
              Set(tuples) == Set(old(tuples)) + added && Set(pending) == Set(old(pending)) + added
    {
      for i := 0 to |entities|
        invariant Valid() && settled == old(settled)
        invariant var added := set e | e in entities[..i] :: Tuple(r, u, e);
                  Set(tuples) == Set(old(tuples)) + added && Set(pending) == Set(old(pending)) + added
      {
        assert entities[..i + 1] == entities[..i] + [entities[i]];
        Push(Tuple(r, u, entities[i]));
      }
      assert entities[..|entities|] == entities;
    }

    method OnEntityAddedToRoom(r: RoomKey, e: Entity, users: seq<UserKey>)
      requires Valid()
      modifies this
      ensures Valid() && settled == old(settled)
      ensures var added := set u | u in users :: Tuple(r, u, e);
              Set(tuples) == Set(old(tuples)) + added && Set(pending) == Set(old(pending)) + added
    {
      for i := 0 to |users|
        invariant Valid() && settled == old(settled)
        invariant var added := set u | u in users[..i] :: Tuple(r, u, e);
                  Set(tuples) == Set(old(tuples)) + added && Set(pending) == Set(old(pending)) + added
      {
        assert users[..i + 1] == users[..i] + [users[i]];
        Push(Tuple(r, users[i], e));
      }
      assert users[..|users|] == users;
    }

    /** `retain` on both vectors; a tuple that goes is no longer continuously present. */
    method Retain(keep: Tuple -> bool)
      requires Valid()
      modifies this
      ensures Valid()
      ensures Set(tuples) == set t | t in Set(old(tuples)) && keep(t)
      ensures Set(pending) == set t | t in Set(old(pending)) && keep(t)
      ensures settled == set t | t in old(settled) && keep(t)
    {
      tuples := Filter(tuples, keep);
      pending := Filter(pending, keep);
      settled := set t | t in settled && keep(t);
      assert Set(tuples) == set t | t in Set(old(tuples)) && keep(t);
      assert Set(pending) == set t | t in Set(old(pending)) && keep(t);
    }

    method OnUserRemovedFromRoom(r: RoomKey, u: UserKey)
      requires Valid()
      modifies this
      ensures Valid()
      ensures Set(tuples) == set t | t in Set(old(tuples)) && (t.room != r || t.user != u)
      ensures Set(pending) == set t | t in Set(old(pending)) && (t.room != r || t.user != u)
      ensures settled == set t | t in old(settled) && (t.room != r || t.user != u)
    {
      Retain((t: Tuple) => t.room != r || t.user != u);
    }

    method OnEntityRemovedFromRoom(r: RoomKey, e: Entity)
      requires Valid()
      modifies this
      ensures Valid()
      ensures Set(tuples) == set t | t in Set(old(tuples)) && (t.room != r || t.entity != e)
      ensures Set(pending) == set t | t in Set(old(pending)) && (t.room != r || t.entity != e)
      ensures settled == set t | t in old(settled) && (t.room != r || t.entity != e)
    {
      Retain((t: Tuple) => t.room != r || t.entity != e);
    }

    method OnEntityDespawned(e: Entity)
      requires Valid()
      modifies this
      ensures Valid()
      ensures Set(tuples) == set t | t in Set(old(tuples)) && t.entity != e
      ensures Set(pending) == set t | t in Set(old(pending)) && t.entity != e
      ensures settled == set t | t in old(settled) && t.entity != e
    {
      Retain((t: Tuple) => t.entity != e);
    }

    method OnRoomDestroyed(r: RoomKey)
      requires Valid()
      modifies this
      ensures Valid()
      ensures Set(tuples) == set t | t in Set(old(tuples)) && t.room != r
      ensures Set(pending) == set t | t in Set(old(pending)) && t.room != r
      ensures settled == set t | t in old(settled) && t.room != r
    {
      Retain((t: Tuple) => t.room != r);
    }
  }

  method Filter(q: seq<Tuple>, keep: Tuple -> bool) returns (kept: seq<Tuple>)
    ensures forall t :: t in kept <==> t in q && keep(t)
  {
    kept := [];
    for i := 0 to |q|
      invariant forall t :: t in kept <==> t in q[..i] && keep(t)
    {
      if keep(q[i]) {
        kept := kept + [q[i]];
      }
    }
  }

  // ----- the store -----

  /** Global entities the map does not know are skipped; `from` says where each result came from. */
  method Resolve(globals: seq<GlobalEntity>, em: EntityMap) returns (entities: seq<Entity>, ghost from: seq<GlobalEntity>)
    ensures forall g :: g in globals && g in em.toEntity ==> em.toEntity[g] in entities
    ensures |from| == |entities|
    ensures forall k :: 0 <= k < |from| ==> from[k] in globals && from[k] in em.toEntity && em.toEntity[from[k]] == entities[k]
  {
    entities, from := [], [];
    for i := 0 to |globals|
      invariant forall k :: 0 <= k < i && globals[k] in em.toEntity ==> em.toEntity[globals[k]] in entities
      invariant |from| == |entities|
      invariant forall k :: 0 <= k < |from| ==> from[k] in globals && from[k] in em.toEntity && em.toEntity[from[k]] == entities[k]
    {
      if globals[i] in em.toEntity {
        entities, from := entities + [em.toEntity[globals[i]]], from + [globals[i]];
      }
    }
  }

  lemma ResolvedTuples(r: RoomKey, u: UserKey, inside: set<GlobalEntity>, em: EntityMap, entities: seq<Entity>, from: seq<GlobalEntity>)
    requires |from| == |entities|
    requires forall g :: g in inside && g in em.toEntity ==> em.toEntity[g] in entities
    requires forall k :: 0 <= k < |from| ==> from[k] in inside && from[k] in em.toEntity && em.toEntity[from[k]] == entities[k]
    ensures (set e | e in entities :: Tuple(r, u, e)) ==
            (set g | g in inside && g in em.toEntity :: Tuple(r, u, em.toEntity[g]))
  {
    var resolved := set g | g in inside && g in em.toEntity :: Tuple(r, u, em.toEntity[g]);
    forall e | e in entities ensures Tuple(r, u, e) in resolved {
      var k :| 0 <= k < |entities| && entities[k] == e;
      var g := from[k];
      assert Tuple(r, u, em.toEntity[g]) in resolved;
    }
  }

  /** `WorldServer`'s room state: the store together with what its methods are given to update. */
  class RoomStore {
    var rooms: map<RoomKey, Room>
    var nextKey: nat

    /** Each key has a room object of its own. */
    ghost predicate Valid()
      reads this, rooms.Values
    {
      && (forall j, k :: j in rooms && k in rooms && j != k ==> rooms[j] != rooms[k])
      && (forall k :: k in rooms ==> rooms[k].Valid() && k < nextKey)
    }

    ghost function Views(): (v: map<RoomKey, RoomView>)
      reads this, rooms.Values
      ensures v.Keys == rooms.Keys
    {
      map k | k in rooms :: rooms[k].View()
    }

    constructor ()
      ensures Valid() && rooms == map[]
    {
      rooms, nextKey := map[], 0;
    }

    method CreateRoom() returns (key: RoomKey)
      requires Valid()
      modifies this
      ensures Valid() && key == old(nextKey) && nextKey == key + 1
      ensures key !in old(rooms) && Views() == old(Views())[key := EMPTY_ROOM]
    {
      key := nextKey;
      nextKey := nextKey + 1;
      var room := new Room();
      rooms := rooms[key := room];
    }

    // One room changes, the others do not.

    method Subscribe(r: RoomKey, u: UserKey) returns (entities: set<GlobalEntity>)
      requires Valid() && r in rooms
      modifies rooms.Values
      ensures Valid() && rooms == old(rooms) && entities == old(Views())[r].entities
      ensures Views() == old(Views())[r := old(Views())[r].(users := old(Views())[r].users + {u})]
    {
      rooms[r].SubscribeUser(u);
      entities := rooms[r].entities;
    }

    method Unsubscribe(r: RoomKey, u: UserKey)
      requires Valid() && r in rooms
      modifies rooms.Values
      ensures Valid() && rooms == old(rooms)
      ensures Views() == old(Views())[r := Vacated(old(Views())[r], u)]
    {
      rooms[r].UnsubscribeUser(u);
    }

    method Place(r: RoomKey, g: GlobalEntity) returns (users: set<UserKey>)
      requires Valid() && r in rooms
      modifies rooms.Values
      ensures Valid() && rooms == old(rooms) && users == old(Views())[r].users
      ensures Views() == old(Views())[r := old(Views())[r].(entities := old(Views())[r].entities + {g})]
    {
      rooms[r].AddEntity(g);
      users := rooms[r].users;
    }

    method Displace(r: RoomKey, g: GlobalEntity, despawned: bool) returns (ok: bool)
      requires Valid() && r in rooms
      modifies rooms.Values
      ensures Valid() && rooms == old(rooms) && ok == (g in old(Views())[r].entities)
      ensures var view := old(Views())[r];
              Views() == old(Views())[r := if ok && !despawned then Relieved(view, {g}) else view.(entities := view.entities - {g})]
    {
      ok := rooms[r].RemoveEntity(g, despawned);
    }

    method Inside(r: RoomKey) returns (entities: set<GlobalEntity>)
      requires Valid() && r in rooms
      ensures entities == Views()[r].entities
    {
      entities := rooms[r].entities;
    }

    method Forget(r: RoomKey) returns (users: set<UserKey>)
      requires Valid() && r in rooms
      modifies this
      ensures Valid() && rooms == old(rooms) - {r} && users == old(Views())[r].users
      ensures Views() == old(Views()) - {r}
    {
      users := rooms[r].users;
      rooms := rooms - {r};
    }

    method Drain(r: RoomKey) returns (out: seq<(UserKey, GlobalEntity)>)
      requires Valid() && r in rooms
      modifies rooms.Values
      ensures Valid() && rooms == old(rooms)
      ensures Views() == old(Views())[r := old(Views())[r].(owed := {})]
      ensures forall p :: p in old(Views())[r].owed ==> p in out
    {
      out := DrainRemovals(rooms[r]);
    }

    /** The first loop of `update_entity_scopes`: every room hands out what it owes. */
    method HandOutRemovals() returns (out: seq<(UserKey, GlobalEntity)>)
      requires Valid()
      modifies rooms.Values
      ensures Valid() && rooms == old(rooms)
      ensures Views() == Paid(old(Views()), rooms.Keys)
      ensures forall k, p :: k in rooms && p in old(Views())[k].owed ==> p in out
    {
      hide RoomStore.Views, RoomStore.Valid;
      out := [];
      var order := Elements(rooms.Keys);
      PaidNone(Views());
      assert SetOf(order[..0]) == {};
      for i := 0 to |order|
        invariant Valid() && rooms == old(rooms)
        invariant Views() == Paid(old(Views()), SetOf(order[..i]))
        invariant forall j, p :: 0 <= j < i && p in old(Views())[order[j]].owed ==> p in out
      {
        assert SetOf(order[..i + 1]) == SetOf(order[..i]) + {order[i]};
        PaidOneMore(old(Views()), SetOf(order[..i]), order[i]);
        var more := Drain(order[i]);
        out := out + more;
      }
      assert order[..|order|] == order && SetOf(order) == rooms.Keys;
    }

    // The operations of the source.

    method AddUser(r: RoomKey, u: UserKey, users: UserStore, em: EntityMap, cache: ScopeChecksCache, ghost before: Model)
      requires Valid() && cache.Valid()
      requires Views() == before.rooms && users.users == before.users && Set(cache.tuples) == before.tuples && Set(cache.pending) == before.pending
      modifies rooms.Values, users, cache
      ensures Valid() && cache.Valid() && rooms == old(rooms)
      ensures var after := UserAdded(before, em, r, u);
              Views() == after.rooms && users.users == after.users && Set(cache.tuples) == after.tuples && Set(cache.pending) == after.pending
    {
      hide RoomStore.Views, RoomStore.Valid, ScopeChecksCache.Valid, Set;
      if u in users.users && r in rooms {
        var inside := Subscribe(r, u);
        users.CacheRoom(u, r);
        var globals := Elements(inside);
        var entities, from := Resolve(globals, em);
        cache.OnUserAddedToRoom(r, u, entities);
        ResolvedTuples(r, u, inside, em, entities, from);
      }
    }

    method RemoveUser(r: RoomKey, u: UserKey, users: UserStore, cache: ScopeChecksCache, ghost before: Model)
      requires Valid() && cache.Valid()
      requires Views() == before.rooms && users.users == before.users && Set(cache.tuples) == before.tuples && Set(cache.pending) == before.pending
      modifies rooms.Values, users, cache
      ensures Valid() && cache.Valid() && rooms == old(rooms)
      ensures var after := UserRemoved(before, r, u);
              Views() == after.rooms && users.users == after.users && Set(cache.tuples) == after.tuples && Set(cache.pending) == after.pending
    {
      hide RoomStore.Views, RoomStore.Valid, ScopeChecksCache.Valid, Set;
      if u in users.users && r in rooms {
        Unsubscribe(r, u);
        users.UncacheRoom(u, r);
        cache.OnUserRemovedFromRoom(r, u);
      }
    }

    method AddEntity(r: RoomKey, e: Entity, em: EntityMap, index: EntityRoomMap, cache: ScopeChecksCache, ghost before: Model)
      returns (ok: bool)
      requires Valid() && cache.Valid()
      requires Views() == before.rooms && index.index == before.entityRooms && Set(cache.tuples) == before.tuples && Set(cache.pending) == before.pending
      modifies rooms.Values, index, cache
      ensures Valid() && cache.Valid() && rooms == old(rooms)
      ensures ok == EntityAdded(before, em, r, e).Done?
      ensures ok ==>
                var after := EntityAdded(before, em, r, e).model;
                Views() == after.rooms && index.index == after.entityRooms && Set(cache.tuples) == after.tuples && Set(cache.pending) == after.pending
    {
      hide RoomStore.Views, RoomStore.Valid, ScopeChecksCache.Valid, Set, RoomAdded;
      if e !in em.toGlobal {
        return false;
      }
      var g := em.toGlobal[e];
      if r !in rooms {
        return true;
      }
      var members := Place(r, g);
      index.EntityAddRoom(g, r);
      var users := Elements(members);
      cache.OnEntityAddedToRoom(r, e, users);
      assert (set u | u in users :: Tuple(r, u, e)) == (set u | u in members :: Tuple(r, u, e));
      return true;
    }

    method RemoveEntity(r: RoomKey, e: Entity, em: EntityMap, index: EntityRoomMap, cache: ScopeChecksCache, ghost before: Model)
      returns (ok: bool)
      requires Valid() && cache.Valid()
      requires Views() == before.rooms && index.index == before.entityRooms && Set(cache.tuples) == before.tuples && Set(cache.pending) == before.pending
      modifies rooms.Values, index, cache
      ensures Valid() && cache.Valid() && rooms == old(rooms)
      ensures ok == EntityRemoved(before, em, r, e).Done?
      ensures ok ==>
                var after := EntityRemoved(before, em, r, e).model;
                Views() == after.rooms && index.index == after.entityRooms && Set(cache.tuples) == after.tuples && Set(cache.pending) == after.pending
    {
      hide RoomStore.Views, RoomStore.Valid, ScopeChecksCache.Valid, Set, RoomRemoved;
      if e !in em.toGlobal {
        return false;
      }
      var g := em.toGlobal[e];
      if r in rooms {
        ok := Displace(r, g, false);
        if !ok {
          return;
        }
        index.RemoveFromRoom(g, r);
        cache.OnEntityRemovedFromRoom(r, e);
      }
      return true;
    }

    /** Empties a room; each entity is visited once, so no removal can panic. */
    method RemoveAllEntities(r: RoomKey, index: EntityRoomMap)
      requires Valid()
      modifies rooms.Values, index
      ensures Valid() && rooms == old(rooms)
      ensures r !in rooms ==> Views() == old(Views()) && index.index == old(index.index)
      ensures r in rooms ==>
                && Views() == old(Views())[r := Relieved(old(Views())[r], old(Views())[r].entities)]
                && index.index == RoomCleared(old(index.index), old(Views())[r].entities, r)
    {
      hide RoomStore.Views, RoomStore.Valid, Emptied, RoomCleared, RoomRemoved, SetOf;
      if r in rooms {
        var inside := Inside(r);
        ghost var all := inside;
        var order := Elements(inside);
        NothingLeft(Views(), index.index, order, r);
        for i := 0 to |order|
          invariant Valid() && rooms == old(rooms)
          invariant Views() == Emptied(old(Views()), r, SetOf(order[..i]))
          invariant index.index == RoomCleared(old(index.index), SetOf(order[..i]), r)
        {
          OneMoreLeaves(old(Views()), old(index.index), order, i, r);
          var ok := Displace(r, order[i], false);
          assert ok;
          index.RemoveFromRoom(order[i], r);
        }
        AllLeft(old(Views()), order, r);
      }
    }

    method Destroy(r: RoomKey, users: UserStore, index: EntityRoomMap, cache: ScopeChecksCache, ghost before: Model)
      returns (existed: bool)
      requires Valid() && cache.Valid()
      requires Views() == before.rooms && users.users == before.users
      requires index.index == before.entityRooms && Set(cache.tuples) == before.tuples && Set(cache.pending) == before.pending
      modifies this, rooms.Values, users, index, cache
      ensures Valid() && cache.Valid() && existed == (r in old(rooms))
      ensures var after := Destroyed(before, r);
              && Views() == after.rooms && users.users == after.users
              && index.index == after.entityRooms && Set(cache.tuples) == after.tuples && Set(cache.pending) == after.pending
    {
      hide RoomStore.Views, RoomStore.Valid, ScopeChecksCache.Valid, Set, RoomCleared;
      RemoveAllEntities(r, index);
      if r !in rooms {
        return false;
      }
      var members := Forget(r);
      assert Views() == before.rooms - {r};
      UncacheAll(members, r, users);
      cache.OnRoomDestroyed(r);
      return true;
    }

    /** `user_delete`: every room the user has cached exists and drops it. */
    method DeleteUser(u: UserKey, users: UserStore, cache: ScopeChecksCache, ghost before: Model) returns (ok: bool)
      requires Valid() && cache.Valid()
      requires Views() == before.rooms && users.users == before.users && Set(cache.tuples) == before.tuples && Set(cache.pending) == before.pending
      modifies rooms.Values, users, cache
      ensures Valid() && cache.Valid() && rooms == old(rooms)
      ensures ok == UserDeleted(before, u).Done?
      ensures ok ==>
                var after := UserDeleted(before, u).model;
                Views() == after.rooms && users.users == after.users && Set(cache.tuples) == after.tuples && Set(cache.pending) == after.pending
    {
      hide RoomStore.Views, RoomStore.Valid, ScopeChecksCache.Valid, Set;
      if u !in users.users {
        return false;
      }
      ghost var left := users.users[u];
      var order := Elements(users.users[u]);
      users.Drop(u);
      for i := 0 to |order|
        modifies rooms.Values, cache
        invariant Valid() && cache.Valid() && rooms == old(rooms)
        invariant Views() == Left(before.rooms, SetOf(order[..i]), u)
        invariant Set(cache.tuples) == Spared(before.tuples, SetOf(order[..i]), u)
        invariant Set(cache.pending) == Spared(before.pending, SetOf(order[..i]), u)
        invariant SetOf(order[..i]) <= rooms.Keys
      {
        assert SetOf(order[..i + 1]) == SetOf(order[..i]) + {order[i]};
        if order[i] !in rooms {
          assert order[i] in left;
          return false;
        }
        LeftOneMore(before.rooms, SetOf(order[..i]), order[i], u);
        SparedOneMore(before.tuples, SetOf(order[..i]), order[i], u);
        SparedOneMore(before.pending, SetOf(order[..i]), order[i], u);
        hide Left, Vacated, Spared;
        Unsubscribe(order[i], u);
        cache.OnUserRemovedFromRoom(order[i], u);
      }
      assert order[..|order|] == order && SetOf(order) == left;
      return true;
    }

    /** The room part of `despawn_entity_worldless`. */
    method DespawnEntity(e: Entity, em: EntityMap, index: EntityRoomMap, cache: ScopeChecksCache, ghost before: Model)
      returns (ok: bool)
      requires Valid() && cache.Valid()
      requires Views() == before.rooms && index.index == before.entityRooms && Set(cache.tuples) == before.tuples && Set(cache.pending) == before.pending
      modifies rooms.Values, index, cache
      ensures Valid() && cache.Valid() && rooms == old(rooms)
      ensures ok == Despawned(before, em, e).Done?
      ensures ok ==>
                var after := Despawned(before, em, e).model;
                Views() == after.rooms && index.index == after.entityRooms && Set(cache.tuples) == after.tuples && Set(cache.pending) == after.pending
    {
      hide RoomStore.Views, RoomStore.Valid, ScopeChecksCache.Valid, Set;
      if e !in em.toGlobal {
        return false;
      }
      var g := em.toGlobal[e];
      ghost var listed := if g in index.index then index.index[g] else {};
      cache.OnEntityDespawned(e);
      var order := index.RemoveFromAllRooms(g);
      for i := 0 to |order|
        modifies rooms.Values
        invariant Valid() && rooms == old(rooms)
        invariant Views() == Without(before.rooms, SetOf(order[..i]), g)
        invariant forall k :: 0 <= k < i && order[k] in rooms ==> g in before.rooms[order[k]].entities
      {
        assert SetOf(order[..i + 1]) == SetOf(order[..i]) + {order[i]};
        WithoutOneMore(before.rooms, SetOf(order[..i]), order[i], g);
        hide Without;
        if order[i] in rooms {
          ok := Displace(order[i], g, true);
          if !ok {
            assert order[i] in order && order[i] in listed && g !in before.rooms[order[i]].entities;
            return;
          }
        }
      }
      assert order[..|order|] == order && SetOf(order) == listed;
      return true;
    }
  }

  ghost function Paid(rooms: map<RoomKey, RoomView>, from: set<int>): map<RoomKey, RoomView> {
    map r | r in rooms :: if r in from then rooms[r].(owed := {}) else rooms[r]
  }

  lemma PaidNone(rooms: map<RoomKey, RoomView>)
    ensures Paid(rooms, {}) == rooms
  {
  }

  lemma PaidOneMore(rooms: map<RoomKey, RoomView>, from: set<int>, r: RoomKey)
    requires r in rooms && r !in from
    ensures var paid := Paid(rooms, from);
            paid[r] == rooms[r] && paid[r := paid[r].(owed := {})] == Paid(rooms, from + {r})
  {
  }

  ghost function SetOf(q: seq<int>): set<int> {
    set x | x in q
  }

  ghost function Left(rooms: map<RoomKey, RoomView>, from: set<int>, u: UserKey): map<RoomKey, RoomView> {
    map r | r in rooms :: if r in from then Vacated(rooms[r], u) else rooms[r]
  }

  ghost function Spared(tuples: set<Tuple>, from: set<int>, u: UserKey): set<Tuple> {
    set t | t in tuples && !(t.room in from && t.user == u)
  }

  lemma SparedOneMore(tuples: set<Tuple>, from: set<int>, r: RoomKey, u: UserKey)
    ensures (set t | t in Spared(tuples, from, u) && (t.room != r || t.user != u)) == Spared(tuples, from + {r}, u)
  {
  }

  ghost function Without(rooms: map<RoomKey, RoomView>, from: set<int>, g: GlobalEntity): map<RoomKey, RoomView> {
    map r | r in rooms :: if r in from then rooms[r].(entities := rooms[r].entities - {g}) else rooms[r]
  }

  lemma LeftOneMore(rooms: map<RoomKey, RoomView>, from: set<int>, r: RoomKey, u: UserKey)
    requires r in rooms && r !in from
    ensures var left := Left(rooms, from, u);
            left[r := Vacated(left[r], u)] == Left(rooms, from + {r}, u)
  {
  }

  lemma WithoutOneMore(rooms: map<RoomKey, RoomView>, from: set<int>, r: RoomKey, g: GlobalEntity)
    requires r !in from
    ensures var left := Without(rooms, from, g);
            if r in rooms then left[r] == rooms[r] && left[r := left[r].(entities := left[r].entities - {g})] == Without(rooms, from + {r}, g)
            else left == Without(rooms, from + {r}, g)
  {
  }

  ghost function Emptied(rooms: map<RoomKey, RoomView>, r: RoomKey, gone: set<GlobalEntity>): map<RoomKey, RoomView>
    requires r in rooms
  {
    rooms[r := Relieved(rooms[r], gone)]
  }

  lemma NothingLeft(rooms: map<RoomKey, RoomView>, index: map<GlobalEntity, set<RoomKey>>, order: seq<GlobalEntity>, r: RoomKey)
    requires r in rooms
    ensures Emptied(rooms, r, SetOf(order[..0])) == rooms && RoomCleared(index, SetOf(order[..0]), r) == index
  {
    assert SetOf(order[..0]) == {};
    assert rooms[r].entities - {} == rooms[r].entities;
    assert rooms[r] == Relieved(rooms[r], {});
  }

  lemma OneMoreLeaves(rooms: map<RoomKey, RoomView>, index: map<GlobalEntity, set<RoomKey>>, order: seq<GlobalEntity>, i: nat, r: RoomKey)
    requires r in rooms && i < |order| && order[i] in rooms[r].entities
    requires forall k :: 0 <= k < i ==> order[k] != order[i]
    ensures var gone, more := SetOf(order[..i]), SetOf(order[..i + 1]);
            var v := Emptied(rooms, r, gone);
            && order[i] in v[r].entities
            && v[r := Relieved(v[r], {order[i]})] == Emptied(rooms, r, more)
            && RoomRemoved(RoomCleared(index, gone, r), order[i], r) == RoomCleared(index, more, r)
  {
    var gone, more := SetOf(order[..i]), SetOf(order[..i + 1]);
    assert order[..i + 1] == order[..i] + [order[i]];
    assert more == gone + {order[i]};
    assert rooms[r].entities - more == (rooms[r].entities - gone) - {order[i]};
    RelievedOneMore(rooms[r], gone, order[i]);
    ClearOneMore(index, gone, order[i], r);
  }

  lemma RelievedOneMore(view: RoomView, gone: set<GlobalEntity>, g: GlobalEntity)
    ensures Relieved(Relieved(view, gone), {g}) == Relieved(view, gone + {g})
  {
    assert Pairs(view.users, gone + {g}) == Pairs(view.users, gone) + Pairs(view.users, {g});
    assert view.entities - (gone + {g}) == (view.entities - gone) - {g};
  }

  lemma AllLeft(rooms: map<RoomKey, RoomView>, order: seq<GlobalEntity>, r: RoomKey)
    requires r in rooms && forall g :: g in order <==> g in rooms[r].entities
    ensures order[..|order|] == order && SetOf(order) == rooms[r].entities
    ensures Emptied(rooms, r, SetOf(order)) == rooms[r := Relieved(rooms[r], rooms[r].entities)]
  {
    forall g: int ensures g in SetOf(order) <==> g in rooms[r].entities {
      assert g in order <==> g in rooms[r].entities;
    }
    assert rooms[r].entities - SetOf(order) == {};
  }

  lemma ClearOneMore(index: map<GlobalEntity, set<RoomKey>>, done: set<GlobalEntity>, g: GlobalEntity, r: RoomKey)
    requires g !in done
    ensures RoomRemoved(RoomCleared(index, done, r), g, r) == RoomCleared(index, done + {g}, r)
  {
  }

  method UncacheAll(members: set<UserKey>, r: RoomKey, users: UserStore)
    modifies users
    ensures users.users == map u | u in old(users.users) :: if u in members then old(users.users)[u] - {r} else old(users.users)[u]
  {
    var order := Elements(members);
    for i := 0 to |order|
      invariant users.users == map u | u in old(users.users) ::
                  if u in order[..i] then old(users.users)[u] - {r} else old(users.users)[u]
    {
      hide RoomStore.Views, RoomStore.Valid, ScopeChecksCache.Valid, Set;
      if order[i] in users.users {
        users.UncacheRoom(order[i], r);
      }
    }
  }
}

/**
 Rooms, their members and the indexes kept beside them, as values
 (`server/src/server/room_store.rs`, `scope_checks_cache.rs`,
 `server/src/world/entity_room_map.rs`, `server/src/user/world_user.rs`, and the
 callers in `server/src/server/world_server.rs`).

 Four structures record overlapping facts: the rooms' own sets, each user's cached
 rooms, each entity's rooms, and the cached (room, user, entity) tuples. `Agree` says
 they tell the same story; it holds after every sequence of operations.
 */
module Rooms {

  type RoomKey = nat
  type UserKey = nat
  type GlobalEntity = int
  type Entity = int

  /** `owed` are the removals still to be handed out: a user and an entity that have parted in this room. */
  datatype RoomView = RoomView(users: set<UserKey>, entities: set<GlobalEntity>, owed: set<(UserKey, GlobalEntity)>)

  const EMPTY_ROOM: RoomView := RoomView({}, {}, {})

  function Pairs(users: set<UserKey>, entities: set<GlobalEntity>): set<(UserKey, GlobalEntity)> {
    set u, g | u in users && g in entities :: (u, g)
  }

  datatype Tuple = Tuple(room: RoomKey, user: UserKey, entity: Entity)

  /** `GlobalEntityMap`: the world's entities and the global ones, both ways. */
  datatype EntityMap = EntityMap(toEntity: map<GlobalEntity, Entity>, toGlobal: map<Entity, GlobalEntity>) {
    ghost predicate Valid() {
      && (forall g :: g in toEntity ==> toEntity[g] in toGlobal && toGlobal[toEntity[g]] == g)
      && (forall e :: e in toGlobal ==> toGlobal[e] in toEntity && toEntity[toGlobal[e]] == e)
    }
  }

  datatype Model = Model(
    rooms: map<RoomKey, RoomView>,
    users: map<UserKey, set<RoomKey>>,
    entityRooms: map<GlobalEntity, set<RoomKey>>,
    tuples: set<Tuple>,
    pending: set<Tuple>)   // the tuples the application has still to look at

  // ----- the recompute -----

  ghost predicate InRoom(m: Model, r: RoomKey, u: UserKey) {
    r in m.rooms && u in m.rooms[r].users
  }

  ghost predicate Holds(m: Model, r: RoomKey, g: GlobalEntity) {
    r in m.rooms && g in m.rooms[r].entities
  }

  /** What a rooms x users x entities walk would produce. */
  ghost predicate Recomputed(m: Model, em: EntityMap, t: Tuple) {
    InRoom(m, t.room, t.user) && t.entity in em.toGlobal && Holds(m, t.room, em.toGlobal[t.entity])
  }

  ghost predicate Agree(m: Model, em: EntityMap) {
    && em.Valid()
    && (forall r, g :: Holds(m, r, g) ==> g in em.toEntity)
    && (forall r, g :: Holds(m, r, g) <==> g in m.entityRooms && r in m.entityRooms[g])
    && (forall g :: g in m.entityRooms ==> m.entityRooms[g] != {})
    && (forall r, u :: InRoom(m, r, u) <==> u in m.users && r in m.users[u])
    && (forall t :: t in m.tuples <==> Recomputed(m, em, t))
    && m.pending <= m.tuples
  }

  // ----- entity-room index -----

  function RoomAdded(index: map<GlobalEntity, set<RoomKey>>, g: GlobalEntity, r: RoomKey): map<GlobalEntity, set<RoomKey>> {
    index[g := (if g in index then index[g] else {}) + {r}]
  }

  /** An entity left without rooms has no entry. */
  function RoomRemoved(index: map<GlobalEntity, set<RoomKey>>, g: GlobalEntity, r: RoomKey): map<GlobalEntity, set<RoomKey>> {
    if g !in index then index
    else if index[g] - {r} == {} then index - {g}
    else index[g := index[g] - {r}]
  }

  // ----- operations -----

  function UserAdded(m: Model, em: EntityMap, r: RoomKey, u: UserKey): Model {
    if u !in m.users || r !in m.rooms then m
    else
      var view := m.rooms[r];
      var added := set g | g in view.entities && g in em.toEntity :: Tuple(r, u, em.toEntity[g]);
      m.(rooms := m.rooms[r := view.(users := view.users + {u})],
         users := m.users[u := m.users[u] + {r}],
         tuples := m.tuples + added, pending := m.pending + added)
  }

  /** The user leaves, and is owed the removal of everything in the room. */
  function Vacated(view: RoomView, u: UserKey): RoomView {
    view.(users := view.users - {u}, owed := view.owed + Pairs({u}, view.entities))
  }

  function UserRemoved(m: Model, r: RoomKey, u: UserKey): Model {
    if u !in m.users || r !in m.rooms then m
    else
      var view := m.rooms[r];
      m.(rooms := m.rooms[r := Vacated(view, u)],
         users := m.users[u := m.users[u] - {r}],
         tuples := (set t | t in m.tuples && (t.room != r || t.user != u)),
         pending := (set t | t in m.pending && (t.room != r || t.user != u)))
  }

  datatype Outcome = Done(model: Model) | Panic

  function EntityAdded(m: Model, em: EntityMap, r: RoomKey, e: Entity): Outcome {
    if e !in em.toGlobal then Panic
    else if r !in m.rooms then Done(m)
    else
      var view, g := m.rooms[r], em.toGlobal[e];
      var added := set u | u in view.users :: Tuple(r, u, e);
      Done(m.(rooms := m.rooms[r := view.(entities := view.entities + {g})],
              entityRooms := RoomAdded(m.entityRooms, g, r),
              tuples := m.tuples + added, pending := m.pending + added))
  }

  /** Entities leave, and everyone in the room is owed their removal. */
  function Relieved(view: RoomView, gone: set<GlobalEntity>): RoomView {
    view.(entities := view.entities - gone, owed := view.owed + Pairs(view.users, gone))
  }

  /** Removing an entity from a room it is not in panics. */
  function EntityRemoved(m: Model, em: EntityMap, r: RoomKey, e: Entity): Outcome {
    if e !in em.toGlobal then Panic
    else if r !in m.rooms then Done(m)
    else
      var view, g := m.rooms[r], em.toGlobal[e];
      if g !in view.entities then Panic
      else
        Done(m.(rooms := m.rooms[r := Relieved(view, {g})],
                entityRooms := RoomRemoved(m.entityRooms, g, r),
                tuples := (set t | t in m.tuples && (t.room != r || t.entity != e)),
                pending := (set t | t in m.pending && (t.room != r || t.entity != e))))
  }

  /** The index once a whole room's entities have left it. */
  function RoomCleared(index: map<GlobalEntity, set<RoomKey>>, entities: set<GlobalEntity>, r: RoomKey): map<GlobalEntity, set<RoomKey>> {
    map g | g in index && !(g in entities && index[g] - {r} == {}) :: if g in entities then index[g] - {r} else index[g]
  }

  function Destroyed(m: Model, r: RoomKey): Model {
    if r !in m.rooms then m
    else
      var view := m.rooms[r];
      Model(m.rooms - {r},
            map u | u in m.users :: if u in view.users then m.users[u] - {r} else m.users[u],
            RoomCleared(m.entityRooms, view.entities, r),
            (set t | t in m.tuples && t.room != r),
            (set t | t in m.pending && t.room != r))
  }

  /** `user_delete`: the user leaves every room it is cached in. */
  function UserDeleted(m: Model, u: UserKey): Outcome {
    if u !in m.users then Panic
    else if !(m.users[u] <= m.rooms.Keys) then Panic
    else
      var left := m.users[u];
      Done(Model(
        map r | r in m.rooms :: if r in left then Vacated(m.rooms[r], u) else m.rooms[r],
        m.users - {u},
        m.entityRooms,
        (set t | t in m.tuples && !(t.room in left && t.user == u)),
        (set t | t in m.pending && !(t.room in left && t.user == u))))
  }

  /** The room part of `despawn_entity_worldless`; `Room::remove_entity` panics where the index is wrong. */
  function Despawned(m: Model, em: EntityMap, e: Entity): Outcome {
    if e !in em.toGlobal then Panic
    else
      var g := em.toGlobal[e];
      var listed := if g in m.entityRooms then m.entityRooms[g] else {};
      if exists r :: r in listed && r in m.rooms && g !in m.rooms[r].entities then Panic
      else
        Done(Model(
          map r | r in m.rooms :: if r in listed then m.rooms[r].(entities := m.rooms[r].entities - {g}) else m.rooms[r],
          m.users,
          m.entityRooms - {g},
          (set t | t in m.tuples && t.entity != e),
          (set t | t in m.pending && t.entity != e)))
  }

  // ----- every operation keeps the agreement -----

  lemma UserAddedKeeps(m: Model, em: EntityMap, r: RoomKey, u: UserKey)
    requires Agree(m, em)
    ensures Agree(UserAdded(m, em, r, u), em)
  {
    if u in m.users && r in m.rooms {
      var m' := UserAdded(m, em, r, u);
      forall r', u' ensures InRoom(m', r', u') <==> InRoom(m, r', u') || (r' == r && u' == u) {}
      forall r', g ensures Holds(m', r', g) <==> Holds(m, r', g) {}
      forall t ensures t in m'.tuples <==> Recomputed(m', em, t) {
        assert t in m.tuples <==> Recomputed(m, em, t);
        if Recomputed(m', em, t) && t !in m.tuples {
          assert t == Tuple(r, u, em.toEntity[em.toGlobal[t.entity]]);
        }
      }
    }
  }

  lemma UserRemovedKeeps(m: Model, em: EntityMap, r: RoomKey, u: UserKey)
    requires Agree(m, em)
    ensures Agree(UserRemoved(m, r, u), em)
  {
    if u in m.users && r in m.rooms {
      var m' := UserRemoved(m, r, u);
      forall r', u' ensures InRoom(m', r', u') <==> InRoom(m, r', u') && (r' != r || u' != u) {}
      forall r', g ensures Holds(m', r', g) <==> Holds(m, r', g) {}
    }
  }

  lemma EntityAddedKeeps(m: Model, em: EntityMap, r: RoomKey, e: Entity)
    requires Agree(m, em)
    ensures EntityAdded(m, em, r, e).Done? ==> Agree(EntityAdded(m, em, r, e).model, em)
  {
    if e in em.toGlobal && r in m.rooms {
      var m', g := EntityAdded(m, em, r, e).model, em.toGlobal[e];
      forall r', u ensures InRoom(m', r', u) <==> InRoom(m, r', u) {}
      forall r', g' ensures Holds(m', r', g') <==> Holds(m, r', g') || (r' == r && g' == g) {}
      forall t ensures t in m'.tuples <==> Recomputed(m', em, t) {
        assert t in m.tuples <==> Recomputed(m, em, t);
        if Recomputed(m', em, t) && t !in m.tuples {
          assert t == Tuple(r, t.user, e);
        }
      }
    }
  }

  lemma EntityRemovedKeeps(m: Model, em: EntityMap, r: RoomKey, e: Entity)
    requires Agree(m, em)
    ensures EntityRemoved(m, em, r, e).Done? ==> Agree(EntityRemoved(m, em, r, e).model, em)
    ensures EntityRemoved(m, em, r, e).Panic? <==>
            e !in em.toGlobal || (r in m.rooms && !Holds(m, r, em.toGlobal[e]))
  {
    if e in em.toGlobal && r in m.rooms && em.toGlobal[e] in m.rooms[r].entities {
      var m', g := EntityRemoved(m, em, r, e).model, em.toGlobal[e];
      assert Holds(m, r, g) && g in m.entityRooms;
      forall r', u ensures InRoom(m', r', u) <==> InRoom(m, r', u) {}
      forall r', g' ensures Holds(m', r', g') <==> Holds(m, r', g') && (r' != r || g' != g) {}
      forall r', g' ensures Holds(m', r', g') <==> g' in m'.entityRooms && r' in m'.entityRooms[g'] {
        assert Holds(m, r', g') <==> g' in m.entityRooms && r' in m.entityRooms[g'];
        assert r' in m.entityRooms[g] - {r} <==> r' in m.entityRooms[g] && r' != r;
      }
      forall t ensures t in m'.tuples <==> Recomputed(m', em, t) {
        assert t in m.tuples <==> Recomputed(m, em, t);
      }
    }
  }

  lemma DestroyedKeeps(m: Model, em: EntityMap, r: RoomKey)
    requires Agree(m, em)
    ensures Agree(Destroyed(m, r), em)
  {
    if r in m.rooms {
      var m' := Destroyed(m, r);
      forall r', u ensures InRoom(m', r', u) <==> InRoom(m, r', u) && r' != r {}
      forall r', g ensures Holds(m', r', g) <==> Holds(m, r', g) && r' != r {}
      forall r', g ensures Holds(m', r', g) <==> g in m'.entityRooms && r' in m'.entityRooms[g] {
        assert Holds(m, r', g) <==> g in m.entityRooms && r' in m.entityRooms[g];
        assert Holds(m, r, g) <==> g in m.entityRooms && r in m.entityRooms[g];
      }
      forall r', u ensures InRoom(m', r', u) <==> u in m'.users && r' in m'.users[u] {
        assert InRoom(m, r', u) <==> u in m.users && r' in m.users[u];
        assert InRoom(m, r, u) <==> u in m.users && r in m.users[u];
      }
      forall t ensures t in m'.tuples <==> Recomputed(m', em, t) {
        assert t in m.tuples <==> Recomputed(m, em, t);
      }
    }
  }

  /** Deleting a known user cannot find a missing room. */
  lemma UserDeletedKeeps(m: Model, em: EntityMap, u: UserKey)
    requires Agree(m, em)
    ensures UserDeleted(m, u).Panic? <==> u !in m.users
    ensures u in m.users ==> Agree(UserDeleted(m, u).model, em)
  {
    if u in m.users {
      forall r | r in m.users[u] ensures r in m.rooms { assert InRoom(m, r, u); }
      var m' := UserDeleted(m, u).model;
      forall r', u' ensures InRoom(m', r', u') <==> InRoom(m, r', u') && u' != u {
        assert InRoom(m, r', u') <==> u' in m.users && r' in m.users[u'];
      }
      forall r', g ensures Holds(m', r', g) <==> Holds(m, r', g) {}
      forall t ensures t in m'.tuples <==> Recomputed(m', em, t) {
        assert t in m.tuples <==> Recomputed(m, em, t);
      }
    }
  }

  function Unmapped(em: EntityMap, e: Entity): EntityMap
    requires e in em.toGlobal
  {
    EntityMap(em.toEntity - {em.toGlobal[e]}, em.toGlobal - {e})
  }

  /** The rooms listed for an entity are exactly those from which it can be removed without a panic. */
  lemma DespawnedKeeps(m: Model, em: EntityMap, e: Entity)
    requires Agree(m, em) && e in em.toGlobal
    ensures Despawned(m, em, e).Done? && Agree(Despawned(m, em, e).model, Unmapped(em, e))
    ensures var g := em.toGlobal[e];
            forall r :: (g in m.entityRooms && r in m.entityRooms[g]) <==> Holds(m, r, g)
  {
    var g := em.toGlobal[e];
    var m', em' := Despawned(m, em, e), Unmapped(em, e);
    forall r | g in m.entityRooms && r in m.entityRooms[g] ensures r in m.rooms && g in m.rooms[r].entities {
      assert Holds(m, r, g);
    }
    assert m'.Done?;
    forall r, g' ensures Holds(m'.model, r, g') <==> Holds(m, r, g') && g' != g {
      assert Holds(m, r, g) <==> g in m.entityRooms && r in m.entityRooms[g];
    }
    forall r, u ensures InRoom(m'.model, r, u) <==> InRoom(m, r, u) {}
    forall t ensures t in m'.model.tuples <==> Recomputed(m'.model, em', t) {
      assert t in m.tuples <==> Recomputed(m, em, t);
    }
  }

  // ----- every run -----

  datatype Op =
    | CreateRoom
    | DestroyRoom(room: RoomKey)
    | AddUser(room: RoomKey, user: UserKey)
    | RemoveUser(room: RoomKey, user: UserKey)
    | AddEntity(room: RoomKey, entity: Entity)
    | RemoveEntity(room: RoomKey, entity: Entity)
    | ReceiveUser(user: UserKey)
    | DeleteUser(user: UserKey)
    | Spawn(entity: Entity, global: GlobalEntity)
    | Despawn(entity: Entity)
    | ClientDespawn(entity: Entity)
    | HandOutRemovals
    | MarkHandled
    | MarkAllPending

  datatype World = World(model: Model, entities: EntityMap, nextRoom: nat) | Crashed

  const EMPTY: World := World(Model(map[], map[], map[], {}, {}), EntityMap(map[], map[]), 0)

  function Apply(w: World, op: Op): World {
    if w.Crashed? then w
    else
      var World(m, em, next) := w;
      match op
      case CreateRoom => World(m.(rooms := m.rooms[next := EMPTY_ROOM]), em, next + 1)
      case DestroyRoom(r) => w.(model := Destroyed(m, r))
      case AddUser(r, u) => w.(model := UserAdded(m, em, r, u))
      case RemoveUser(r, u) => w.(model := UserRemoved(m, r, u))
      case AddEntity(r, e) => Settle(w, EntityAdded(m, em, r, e))
      case RemoveEntity(r, e) => Settle(w, EntityRemoved(m, em, r, e))
      // a user is announced to the world server once in its life, an entity is mapped under new names
      case ReceiveUser(u) => if u in m.users then w else w.(model := m.(users := m.users[u := {}]))
      case DeleteUser(u) => Settle(w, UserDeleted(m, u))
      case Spawn(e, g) =>
        if e in em.toGlobal || g in em.toEntity then w
        else w.(entities := EntityMap(em.toEntity[g := e], em.toGlobal[e := g]))
      case MarkHandled => w.(model := m.(pending := {}))
      case MarkAllPending => w.(model := m.(pending := m.tuples))
      case HandOutRemovals => w.(model := m.(rooms := map r | r in m.rooms :: m.rooms[r].(owed := {})))
      // a client despawns an entity of its own that is private: only the names go
      case ClientDespawn(e) => if e in em.toGlobal then w.(entities := Unmapped(em, e)) else Crashed
      case Despawn(e) =>
        match Despawned(m, em, e)
        case Panic => Crashed
        case Done(m') => if e in em.toGlobal then World(m', Unmapped(em, e), next) else Crashed
  }

  function Settle(w: World, o: Outcome): World
    requires w.World?
  {
    match o
    case Panic => Crashed
    case Done(m) => w.(model := m)
  }

  function Run(ops: seq<Op>): World {
    if ops == [] then EMPTY else Apply(Run(ops[..|ops| - 1]), ops[|ops| - 1])
  }

  ghost predicate Sound(w: World) {
    w.World? ==> Agree(w.model, w.entities) && forall r :: r in w.model.rooms ==> r < w.nextRoom
  }

  lemma CreateKeeps(m: Model, em: EntityMap, next: nat)
    requires Agree(m, em) && next !in m.rooms
    ensures Agree(m.(rooms := m.rooms[next := EMPTY_ROOM]), em)
  {
    var m' := m.(rooms := m.rooms[next := EMPTY_ROOM]);
    forall r, u ensures InRoom(m', r, u) <==> InRoom(m, r, u) {}
    forall r, g ensures Holds(m', r, g) <==> Holds(m, r, g) {}
    forall t ensures t in m'.tuples <==> Recomputed(m', em, t) {
      assert t in m.tuples <==> Recomputed(m, em, t);
    }
  }

  lemma HandOutKeeps(m: Model, em: EntityMap)
    requires Agree(m, em)
    ensures Agree(m.(rooms := map r | r in m.rooms :: m.rooms[r].(owed := {})), em)
  {
    var m' := m.(rooms := map r | r in m.rooms :: m.rooms[r].(owed := {}));
    forall r, u ensures InRoom(m', r, u) <==> InRoom(m, r, u) {}
    forall r, g ensures Holds(m', r, g) <==> Holds(m, r, g) {}
    forall t ensures t in m'.tuples <==> Recomputed(m', em, t) {
      assert t in m.tuples <==> Recomputed(m, em, t);
    }
  }

  lemma MarkKeeps(m: Model, em: EntityMap)
    requires Agree(m, em)
    ensures Agree(m.(pending := {}), em) && Agree(m.(pending := m.tuples), em)
  {
    forall p: set<Tuple> | p <= m.tuples ensures Agree(m.(pending := p), em) {
      var m' := m.(pending := p);
      forall t ensures t in m'.tuples <==> Recomputed(m', em, t) {
        assert t in m.tuples <==> Recomputed(m, em, t);
      }
      forall r, u ensures InRoom(m', r, u) <==> InRoom(m, r, u) {}
      forall r, g ensures Holds(m', r, g) <==> Holds(m, r, g) {}
    }
  }

  lemma ReceiveKeeps(m: Model, em: EntityMap, u: UserKey)
    requires Agree(m, em) && u !in m.users
    ensures Agree(m.(users := m.users[u := {}]), em)
  {
    var m' := m.(users := m.users[u := {}]);
    forall r, u' ensures InRoom(m', r, u') <==> InRoom(m, r, u') {}
    forall r, g ensures Holds(m', r, g) <==> Holds(m, r, g) {}
    forall t ensures t in m'.tuples <==> Recomputed(m', em, t) {
      assert t in m.tuples <==> Recomputed(m, em, t);
    }
  }

  lemma SpawnKeeps(m: Model, em: EntityMap, e: Entity, g: GlobalEntity)
    requires Agree(m, em) && e !in em.toGlobal && g !in em.toEntity
    ensures Agree(m, EntityMap(em.toEntity[g := e], em.toGlobal[e := g]))
  {
    var em' := EntityMap(em.toEntity[g := e], em.toGlobal[e := g]);
    forall t ensures t in m.tuples <==> Recomputed(m, em', t) {
      assert t in m.tuples <==> Recomputed(m, em, t);
    }
  }

  ghost predicate InNoRoom(m: Model, g: GlobalEntity) {
    forall r :: !Holds(m, r, g)
  }

  /** Taking away only an entity's names keeps the agreement exactly if the entity is in no room. */
  lemma UnmappedAgreesIff(m: Model, em: EntityMap, e: Entity)
    requires Agree(m, em) && e in em.toGlobal
    ensures Agree(m, Unmapped(em, e)) <==> InNoRoom(m, em.toGlobal[e])
  {
    var g, em' := em.toGlobal[e], Unmapped(em, e);
    if InNoRoom(m, g) {
      forall r, g' | Holds(m, r, g') ensures g' in em'.toEntity {
        assert g' != g && g' in em.toEntity;
      }
      forall t ensures t in m.tuples <==> Recomputed(m, em', t) {
        assert t in m.tuples <==> Recomputed(m, em, t);
      }
    } else {
      var r :| Holds(m, r, g);
      assert g !in em'.toEntity;
    }
  }

  /** A client despawns a private entity that is still in some room. */
  ghost predicate LeavesBehind(w: World, op: Op) {
    w.World? && op.ClientDespawn? && op.entity in w.entities.toGlobal && !InNoRoom(w.model, w.entities.toGlobal[op.entity])
  }

  lemma ApplyKeepsIff(w: World, op: Op)
    requires Sound(w)
    ensures Sound(Apply(w, op)) <==> !LeavesBehind(w, op)
  {
    hide Agree, InNoRoom;
    if w.World? {
      var World(m, em, next) := w;
      match op
      case CreateRoom => CreateKeeps(m, em, next);
      case DestroyRoom(r) => DestroyedKeeps(m, em, r);
      case AddUser(r, u) => UserAddedKeeps(m, em, r, u);
      case RemoveUser(r, u) => UserRemovedKeeps(m, em, r, u);
      case AddEntity(r, e) => EntityAddedKeeps(m, em, r, e);
      case RemoveEntity(r, e) => EntityRemovedKeeps(m, em, r, e);
      case ReceiveUser(u) => if u !in m.users { ReceiveKeeps(m, em, u); }
      case DeleteUser(u) => UserDeletedKeeps(m, em, u);
      case Spawn(e, g) => if e !in em.toGlobal && g !in em.toEntity { SpawnKeeps(m, em, e, g); }
      case Despawn(e) => if e in em.toGlobal { DespawnedKeeps(m, em, e); }
      case ClientDespawn(e) => if e in em.toGlobal { UnmappedAgreesIff(m, em, e); }
      case HandOutRemovals => HandOutKeeps(m, em);
      case MarkHandled => MarkKeeps(m, em);
      case MarkAllPending => MarkKeeps(m, em);
    }
  }

  ghost predicate NoneLeftBehind(ops: seq<Op>) {
    forall n :: 0 <= n < |ops| ==> !LeavesBehind(Run(ops[..n]), ops[n])
  }

  lemma NoneLeftBefore(ops: seq<Op>)
    requires NoneLeftBehind(ops) && ops != []
    ensures NoneLeftBehind(ops[..|ops| - 1])
  {
    var before := ops[..|ops| - 1];
    assert forall k :: 0 <= k < |before| ==> before[..k] == ops[..k];
  }

  /**
   After any sequence of operations that has not panicked, and in which no client despawned a private entity
   still in a room, the cached tuples are exactly those a full recompute yields, and all three reverse
   indexes agree with the rooms.
   */
  lemma {:induction false} IndexesAgree(ops: seq<Op>)
    requires NoneLeftBehind(ops)
    ensures Sound(Run(ops))
  {
    if ops != [] {
      NoneLeftBefore(ops);
      IndexesAgree(ops[..|ops| - 1]);
      ApplyKeepsIff(Run(ops[..|ops| - 1]), ops[|ops| - 1]);
    }
  }

  /** Otherwise it leaves a scope check for an entity that no longer exists, in every room and for every user it was with. */
  lemma LeftBehindStaysCached(ops: seq<Op>, r: RoomKey, u: UserKey, e: Entity)
    requires NoneLeftBehind(ops) && Run(ops).World? && e in Run(ops).entities.toGlobal
    requires InRoom(Run(ops).model, r, u) && Holds(Run(ops).model, r, Run(ops).entities.toGlobal[e])
    ensures var w := Run(ops + [ClientDespawn(e)]);
            w.World? && e !in w.entities.toGlobal && Tuple(r, u, e) in w.model.tuples && !Sound(w)
  {
    IndexesAgree(ops);
    assert (ops + [ClientDespawn(e)])[..|ops|] == ops;
    var w := Run(ops);
    assert Recomputed(w.model, w.entities, Tuple(r, u, e));
    ApplyKeepsIff(w, ClientDespawn(e));
  }

  /** Such a state is reached: a user and a private entity share a room. */
  lemma LeftBehindExample(u: UserKey, e: Entity, g: GlobalEntity)
    ensures var ops := [CreateRoom, ReceiveUser(u), AddUser(0, u), Spawn(e, g), AddEntity(0, e)];
            && NoneLeftBehind(ops) && Run(ops).World? && Run(ops).entities.toGlobal == map[e := g]
            && InRoom(Run(ops).model, 0, u) && Holds(Run(ops).model, 0, g)
  {
    SharedRoom(u, e, g);
    var o0: seq<Op> := [];
    assert NoneLeftBehind(o0) && Run(o0) == EMPTY;
    hide Apply, Run, NoneLeftBehind;
    var w1 := RunNext(o0, EMPTY, CreateRoom);
    var o1 := o0 + [CreateRoom];
    var w2 := RunNext(o1, w1, ReceiveUser(u));
    var o2 := o1 + [ReceiveUser(u)];
    var w3 := RunNext(o2, w2, AddUser(0, u));
    var o3 := o2 + [AddUser(0, u)];
    var w4 := RunNext(o3, w3, Spawn(e, g));
    var o4 := o3 + [Spawn(e, g)];
    var w5 := RunNext(o4, w4, AddEntity(0, e));
    assert o4 + [AddEntity(0, e)] == [CreateRoom, ReceiveUser(u), AddUser(0, u), Spawn(e, g), AddEntity(0, e)];
  }

  lemma SharedRoom(u: UserKey, e: Entity, g: GlobalEntity)
    ensures var w := Apply(Apply(Apply(Apply(Apply(EMPTY, CreateRoom), ReceiveUser(u)), AddUser(0, u)), Spawn(e, g)), AddEntity(0, e));
            && w.World? && w.entities.toGlobal == map[e := g] && InRoom(w.model, 0, u) && Holds(w.model, 0, g)
  {
    var w1 := Apply(EMPTY, CreateRoom);
    var w2 := Apply(w1, ReceiveUser(u));
    var w3 := Apply(w2, AddUser(0, u));
    assert w3.World? && InRoom(w3.model, 0, u) && w3.entities == EntityMap(map[], map[]);
    var w4 := Apply(w3, Spawn(e, g));
    assert w4.World? && w4.model == w3.model && w4.entities == EntityMap(map[g := e], map[e := g]);
  }

  lemma RunNext(ops: seq<Op>, w: World, op: Op) returns (w': World)
    requires NoneLeftBehind(ops) && Run(ops) == w && !op.ClientDespawn?
    ensures NoneLeftBehind(ops + [op]) && Run(ops + [op]) == w' == Apply(w, op)
  {
    var all := ops + [op];
    assert all[..|ops|] == ops;
    assert forall k :: 0 <= k < |ops| ==> all[..k] == ops[..k];
    w' := Apply(w, op);
  }

  /** The next operation panics only on an argument the caller could have checked, never for an inconsistent index. */
  lemma PanicsOnlyOnBadArguments(ops: seq<Op>, op: Op)
    requires NoneLeftBehind(ops) && Run(ops).World?
    ensures var World(m, em, _) := Run(ops);
            Apply(Run(ops), op).Crashed? <==>
              match op
              case AddEntity(_, e) => e !in em.toGlobal
              case RemoveEntity(r, e) => e !in em.toGlobal || (r in m.rooms && em.toGlobal[e] !in m.rooms[r].entities)
              case DeleteUser(u) => u !in m.users
              case Despawn(e) => e !in em.toGlobal
              case ClientDespawn(e) => e !in em.toGlobal
              case _ => false
  {
    IndexesAgree(ops);
    var World(m, em, _) := Run(ops);
    match op
    case DeleteUser(u) => UserDeletedKeeps(m, em, u);
    case Despawn(e) => if e in em.toGlobal { DespawnedKeeps(m, em, e); }
    case _ =>
  }
}

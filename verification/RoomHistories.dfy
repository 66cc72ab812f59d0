/**
 What the operations of `server/src/server/room_store.rs` are for, told from their history: a user or an
 entity is in a room exactly if the last operation that concerns the two put it there.
 */
module RoomHistories {
  import opened Rooms

  /** The things one can ask of a server with rooms. */
  datatype Fact =
    | RoomExists(room: RoomKey)
    | UserKnown(user: UserKey)
    | UserIn(room: RoomKey, user: UserKey)
    | EntityNamed(entity: Entity, global: GlobalEntity)
    | EntityIn(room: RoomKey, global: GlobalEntity)
    | RemovalOwed(room: RoomKey, user: UserKey, global: GlobalEntity)
    | CheckPending(check: Tuple)

  ghost predicate Is(w: World, f: Fact) {
    w.World? &&
    match f
    case RoomExists(r) => r in w.model.rooms
    case UserKnown(u) => u in w.model.users
    case UserIn(r, u) => InRoom(w.model, r, u)
    case EntityNamed(e, g) => e in w.entities.toGlobal && w.entities.toGlobal[e] == g
    case EntityIn(r, g) => Holds(w.model, r, g)
    case RemovalOwed(r, u, g) => r in w.model.rooms && (u, g) in w.model.rooms[r].owed
    case CheckPending(t) => t in w.model.pending
  }

  /** The operation makes it so. Rooms are numbered in the order of their creation. */
  ghost predicate Makes(w: World, op: Op, f: Fact) {
    w.World? &&
    match f
    case RoomExists(r) => op.CreateRoom? && r == w.nextRoom
    case UserKnown(u) => op == ReceiveUser(u)
    case UserIn(r, u) => op == AddUser(r, u) && Is(w, RoomExists(r)) && Is(w, UserKnown(u))
    case EntityNamed(e, g) => op == Spawn(e, g) && e !in w.entities.toGlobal && g !in w.entities.toEntity
    case EntityIn(r, g) => op.AddEntity? && op.room == r && Is(w, RoomExists(r)) && Is(w, EntityNamed(op.entity, g))
    case RemovalOwed(r, u, g) =>
      || (op == RemoveUser(r, u) && Is(w, UserKnown(u)) && Is(w, EntityIn(r, g)))
      || (op == DeleteUser(u) && Is(w, UserIn(r, u)) && Is(w, EntityIn(r, g)))
      || (op.RemoveEntity? && op.room == r && Is(w, EntityNamed(op.entity, g)) && Is(w, UserIn(r, u)))
    case CheckPending(t) =>
      || (op == AddUser(t.room, t.user) && Is(w, UserKnown(t.user)) && Placed(w, t.room, t.entity))
      || (op == AddEntity(t.room, t.entity) && Is(w, UserIn(t.room, t.user)))
      || (op.MarkAllPending? && Is(w, UserIn(t.room, t.user)) && Placed(w, t.room, t.entity))
  }

  /** The entity is in the room, under the name it has. */
  ghost predicate Placed(w: World, r: RoomKey, e: Entity) {
    w.World? && e in w.entities.toGlobal && Is(w, EntityIn(r, w.entities.toGlobal[e]))
  }

  predicate Leaves(op: Op, r: RoomKey, u: UserKey) {
    op == RemoveUser(r, u) || op == DeleteUser(u) || op == DestroyRoom(r)
  }

  /** The operation puts an end to it. */
  ghost predicate Ends(w: World, op: Op, f: Fact) {
    match f
    case RoomExists(r) => op == DestroyRoom(r)
    case UserKnown(u) => op == DeleteUser(u)
    case UserIn(r, u) => Leaves(op, r, u)
    case EntityNamed(e, _) => op == Despawn(e) || op == ClientDespawn(e)
    case EntityIn(r, g) =>
      || op == DestroyRoom(r)
      || (op.RemoveEntity? && op.room == r && Is(w, EntityNamed(op.entity, g)))
      || (op.Despawn? && Is(w, EntityNamed(op.entity, g)))
    case RemovalOwed(r, _, _) => op.HandOutRemovals? || op == DestroyRoom(r)
    case CheckPending(t) =>
      || op.MarkHandled? || Leaves(op, t.room, t.user)
      || op == RemoveEntity(t.room, t.entity) || op == Despawn(t.entity)
  }

  /** A fact holds after the operation exactly if it held and is not ended, or is made. */
  ghost predicate Follows(w: World, op: Op, f: Fact) {
    Is(Apply(w, op), f) <==> (Is(w, f) && !Ends(w, op, f)) || Makes(w, op, f)
  }

  lemma UserInChanged(w: World, op: Op, r: RoomKey, u: UserKey)
    requires Sound(w) && w.World? && Apply(w, op).World? && (op.AddUser? || op.RemoveUser? || op.DeleteUser? || op.DestroyRoom?)
    ensures Follows(w, op, UserIn(r, u))
  {
    assert InRoom(w.model, r, u) <==> u in w.model.users && r in w.model.users[u];
    hide Agree, RoomAdded, RoomRemoved, RoomCleared, Pairs, EntityAdded, EntityRemoved, Despawned, Unmapped;
  }

  lemma UserInAfter(w: World, op: Op, r: RoomKey, u: UserKey)
    requires Sound(w) && w.World? && Apply(w, op).World?
    ensures Follows(w, op, UserIn(r, u))
  {
    if op.AddUser? || op.RemoveUser? || op.DeleteUser? || op.DestroyRoom? {
      hide Follows, Sound, Apply;
      UserInChanged(w, op, r, u);
    } else {
      hide Agree, RoomAdded, RoomRemoved, RoomCleared, Pairs, UserAdded, UserRemoved, UserDeleted, Destroyed, Vacated;
    }
  }

  lemma EntityInChanged(w: World, op: Op, r: RoomKey, g: GlobalEntity)
    requires Sound(w) && w.World? && Apply(w, op).World? && (op.AddEntity? || op.RemoveEntity? || op.Despawn? || op.DestroyRoom?)
    ensures Follows(w, op, EntityIn(r, g))
  {
    assert Holds(w.model, r, g) <==> g in w.model.entityRooms && r in w.model.entityRooms[g];
    hide Agree, RoomAdded, RoomRemoved, RoomCleared, Pairs, UserAdded, UserRemoved, UserDeleted;
  }

  lemma EntityInAfter(w: World, op: Op, r: RoomKey, g: GlobalEntity)
    requires Sound(w) && w.World? && Apply(w, op).World?
    ensures Follows(w, op, EntityIn(r, g))
  {
    if op.AddEntity? || op.RemoveEntity? || op.Despawn? || op.DestroyRoom? {
      hide Follows, Sound, Apply;
      EntityInChanged(w, op, r, g);
    } else {
      hide Agree, RoomAdded, RoomRemoved, RoomCleared, Pairs, EntityAdded, EntityRemoved, Despawned, Destroyed, Relieved, Unmapped;
    }
  }

  lemma OwedChanged(w: World, op: Op, r: RoomKey, u: UserKey, g: GlobalEntity)
    requires Sound(w) && w.World? && Apply(w, op).World? && (op.RemoveUser? || op.DeleteUser? || op.RemoveEntity?)
    ensures Follows(w, op, RemovalOwed(r, u, g))
  {
    assert InRoom(w.model, r, u) <==> u in w.model.users && r in w.model.users[u];
    hide Agree, RoomAdded, RoomRemoved, RoomCleared, Unmapped, UserAdded, EntityAdded, Destroyed, Despawned;
  }

  lemma OwedAfter(w: World, op: Op, r: RoomKey, u: UserKey, g: GlobalEntity)
    requires Sound(w) && w.World? && Apply(w, op).World?
    ensures Follows(w, op, RemovalOwed(r, u, g))
  {
    if op.RemoveUser? || op.DeleteUser? || op.RemoveEntity? {
      hide Follows, Sound, Apply;
      OwedChanged(w, op, r, u, g);
    } else {
      hide Agree, RoomAdded, RoomRemoved, RoomCleared, Unmapped, Vacated, Relieved, Pairs, UserRemoved, UserDeleted, EntityRemoved;
    }
  }

  lemma PendingAdded(w: World, op: Op, t: Tuple)
    requires Sound(w) && w.World? && Apply(w, op).World? && (op.AddUser? || op.AddEntity?)
    ensures Follows(w, op, CheckPending(t))
  {
    assert InRoom(w.model, t.room, t.user) <==> t.user in w.model.users && t.room in w.model.users[t.user];
    if op.AddUser? && op.room == t.room && op.user == t.user && Placed(w, t.room, t.entity) {
      var g := w.entities.toGlobal[t.entity];
      assert g in w.entities.toEntity && w.entities.toEntity[g] == t.entity;
      assert Tuple(t.room, t.user, w.entities.toEntity[g]) == t;
    }
    hide Agree, RoomAdded, RoomRemoved, RoomCleared, Destroyed, UserRemoved, EntityRemoved, UserDeleted, Despawned, Unmapped;
  }

  lemma PendingKept(w: World, op: Op, t: Tuple)
    requires Sound(w) && w.World? && Apply(w, op).World? && !op.AddUser? && !op.AddEntity?
    ensures Follows(w, op, CheckPending(t))
  {
    assert t in w.model.tuples <==> Recomputed(w.model, w.entities, t);
    assert InRoom(w.model, t.room, t.user) <==> t.user in w.model.users && t.room in w.model.users[t.user];
    assert w.model.pending <= w.model.tuples;
    hide Agree, RoomAdded, RoomRemoved, RoomCleared, Vacated, Relieved, Pairs, UserAdded, EntityAdded, Unmapped;
  }

  lemma PendingAfter(w: World, op: Op, t: Tuple)
    requires Sound(w) && w.World? && Apply(w, op).World?
    ensures Follows(w, op, CheckPending(t))
  {
    hide Sound, Follows, Apply;
    if op.AddUser? || op.AddEntity? { PendingAdded(w, op, t); } else { PendingKept(w, op, t); }
  }

  lemma PlainAfter(w: World, op: Op, f: Fact)
    requires Sound(w) && w.World? && Apply(w, op).World? && (f.RoomExists? || f.UserKnown? || f.EntityNamed?)
    ensures Follows(w, op, f)
  {
    hide Agree, RoomAdded, RoomRemoved, RoomCleared, Vacated, Relieved, Pairs, InRoom, Holds;
  }

  /** Every operation and every fact. */
  lemma FactAfter(w: World, op: Op, f: Fact)
    requires Sound(w) && w.World? && Apply(w, op).World?
    ensures Follows(w, op, f)
  {
    hide Follows, Sound, Apply;
    match f
    case UserIn(r, u) => UserInAfter(w, op, r, u);
    case EntityIn(r, g) => EntityInAfter(w, op, r, g);
    case RemovalOwed(r, u, g) => OwedAfter(w, op, r, u, g);
    case CheckPending(t) => PendingAfter(w, op, t);
    case _ => PlainAfter(w, op, f);
  }

  // ----- every run -----

  /** Operation `n` made it so and no later one put an end to it. */
  ghost predicate LastWord(ops: seq<Op>, f: Fact, n: int) {
    && 0 <= n < |ops| && Makes(Run(ops[..n]), ops[n], f)
    && forall k :: n < k < |ops| ==> !Ends(Run(ops[..k]), ops[k], f)
  }

  ghost predicate Told(ops: seq<Op>, f: Fact) {
    exists n :: LastWord(ops, f, n)
  }

  lemma LastWordStays(ops: seq<Op>, f: Fact, k: int)
    requires ops != [] && k < |ops| - 1
    ensures var n := |ops| - 1;
            LastWord(ops, f, k) <==> LastWord(ops[..n], f, k) && !Ends(Run(ops[..n]), ops[n], f)
  {
    hide Run, Makes, Ends;
    var n := |ops| - 1;
    var before := ops[..n];
    assert forall j :: 0 <= j < n ==> before[..j] == ops[..j] && before[j] == ops[j];
  }

  /**
   Every run that has not crashed, and in which no client despawned a private entity still in a room: a fact holds
   exactly if some operation made it so and no later one put an end to it.
   */
  lemma {:induction false} FactIsLastWord(ops: seq<Op>, f: Fact)
    requires NoneLeftBehind(ops) && Run(ops).World?
    ensures Is(Run(ops), f) <==> Told(ops, f)
  {
    if ops == [] {
      assert !Is(EMPTY, f);
    } else {
      hide Apply, Is, Makes, Ends, Sound;
      var n := |ops| - 1;
      var before, w := ops[..n], Run(ops[..n]);
      NoneLeftBefore(ops);
      assert w.World? by { CrashedStays(w, ops[n]); }
      FactIsLastWord(before, f);
      IndexesAgree(before);
      FactAfter(w, ops[n], f);
      hide Run;
      forall k: int | k < n ensures LastWord(ops, f, k) <==> LastWord(before, f, k) && !Ends(w, ops[n], f) {
        LastWordStays(ops, f, k);
      }
      assert LastWord(ops, f, n) <==> Makes(w, ops[n], f);
      if k :| LastWord(before, f, k) { assert k < n; }
      if k :| LastWord(ops, f, k) { assert k < n || k == n; }
    }
  }

  lemma CrashedStays(w: World, op: Op)
    requires Apply(w, op).World?
    ensures w.World?
  {
  }

  /** And a scope check is cached exactly if the history puts user and entity into one room. */
  lemma CheckIsLastWord(ops: seq<Op>, t: Tuple)
    requires NoneLeftBehind(ops) && Run(ops).World?
    ensures t in Run(ops).model.tuples <==>
            Told(ops, UserIn(t.room, t.user)) && exists g :: Told(ops, EntityNamed(t.entity, g)) && Told(ops, EntityIn(t.room, g))
  {
    hide Run, Told, NoneLeftBehind;
    IndexesAgree(ops);
    var w := Run(ops);
    assert t in w.model.tuples <==> Recomputed(w.model, w.entities, t);
    hide Agree;
    FactIsLastWord(ops, UserIn(t.room, t.user));
    forall g
      ensures Told(ops, EntityNamed(t.entity, g)) <==> t.entity in w.entities.toGlobal && w.entities.toGlobal[t.entity] == g
      ensures Told(ops, EntityIn(t.room, g)) <==> Holds(w.model, t.room, g)
    {
      FactIsLastWord(ops, EntityNamed(t.entity, g));
      FactIsLastWord(ops, EntityIn(t.room, g));
    }
    if t in w.model.tuples {
      var g := w.entities.toGlobal[t.entity];
      assert Told(ops, EntityNamed(t.entity, g)) && Told(ops, EntityIn(t.room, g));
    }
  }

  // ----- removals -----

  /** When a user and an entity part in a room, the user is owed the removal unless it is the room or the entity that goes. */
  lemma PartingIsOwedIff(w: World, op: Op, r: RoomKey, u: UserKey, g: GlobalEntity)
    requires Sound(w) && w.World? && Apply(w, op).World?
    requires Is(w, UserIn(r, u)) && Is(w, EntityIn(r, g)) && !Is(w, RemovalOwed(r, u, g))
    requires !Is(Apply(w, op), UserIn(r, u)) || !Is(Apply(w, op), EntityIn(r, g))
    ensures Is(Apply(w, op), RemovalOwed(r, u, g)) <==> !op.DestroyRoom? && !op.Despawn?
  {
    FactAfter(w, op, UserIn(r, u));
    FactAfter(w, op, EntityIn(r, g));
    FactAfter(w, op, RemovalOwed(r, u, g));
    assert InRoom(w.model, r, u) <==> u in w.model.users && r in w.model.users[u];
    hide Apply, Agree;
  }

  /** For instance: user and entity share a room, the room is destroyed, and nothing says that the user is to lose the entity. */
  lemma DestroyedRoomOwesNothing(u: UserKey, e: Entity, g: GlobalEntity, r: RoomKey)
    ensures var before := [CreateRoom, ReceiveUser(u), AddUser(0, u), Spawn(e, g), AddEntity(0, e)];
            var after := before + [DestroyRoom(0)];
            && Run(before).World? && Is(Run(before), UserIn(0, u)) && Is(Run(before), EntityIn(0, g))
            && Run(after).World? && !Is(Run(after), UserIn(0, u)) && !Is(Run(after), EntityIn(0, g))
            && !Is(Run(after), RemovalOwed(r, u, g))
  {
    var before := [CreateRoom, ReceiveUser(u), AddUser(0, u), Spawn(e, g), AddEntity(0, e)];
    LeftBehindExample(u, e, g);
    IndexesAgree(before);
    var next := RunNext(before, Run(before), DestroyRoom(0));
    FactIsLastWord(before, RemovalOwed(r, u, g));
    hide Run, NoneLeftBehind, Sound;
    var w := Run(before);
    DestroyStays(w, 0);
    FactAfter(w, DestroyRoom(0), UserIn(0, u));
    FactAfter(w, DestroyRoom(0), EntityIn(0, g));
    FactAfter(w, DestroyRoom(0), RemovalOwed(r, u, g));
    hide Apply;
  }

  lemma DestroyStays(w: World, r: RoomKey)
    requires w.World?
    ensures Apply(w, DestroyRoom(r)).World?
  {
  }

  /** Room keys count the rooms made so far. */
  function Creations(ops: seq<Op>): nat {
    if ops == [] then 0 else Creations(ops[..|ops| - 1]) + if ops[|ops| - 1].CreateRoom? then 1 else 0
  }

  lemma {:induction false} RoomsAreNumbered(ops: seq<Op>)
    requires Run(ops).World?
    ensures Run(ops).nextRoom == Creations(ops)
  {
    if ops != [] {
      CrashedStays(Run(ops[..|ops| - 1]), ops[|ops| - 1]);
      RoomsAreNumbered(ops[..|ops| - 1]);
    }
  }
}

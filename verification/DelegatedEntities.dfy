/**
 What the two layers of authority amount to for one entity. The records of
 `server/src/world/global_world_manager.rs`, the owner map of `server_auth_handler.rs` and the status map of
 `host_auth_handler.rs` together do what one small machine per entity does, which knows the entity's
 record and its holder; entities do not affect one another.
 */
module DelegatedEntities {
  import opened Options
  import opened Authority

  /** `holder` is absent for an entity that is not registered for delegation. */
  datatype Entity = Entity(record: Option<Record>, holder: Option<AuthOwner>)

  predicate Open(x: Entity) {
    x.record.Some? && x.record.value.publicity == Delegated && x.holder.Some?
  }

  predicate Owned(x: Entity, o: EntityOwner) {
    x.record.Some? && x.record.value.owner == o
  }

  function Publishes(x: Entity, u: UserKey): Option<(Entity, Reply)> {
    Some((x.(record := Some(Record(ClientPublic(u), Public))), Ok(Nobody)))
  }

  /** An exchange of authority over an entity that is open to it: the new holder, or why there is none. */
  function Exchanged(holder: AuthOwner, call: Call): (AuthOwner, Reply) {
    match call
    case RequestAuthority(_, who) => if holder == Nobody then (who, Ok(Nobody)) else (holder, NotAvailable)
    case ReleaseAuthority(_, who) => if who == ServerHolds || who == holder then (Nobody, Ok(holder)) else (holder, NotHolder)
    case GiveAuthority(_, target) => (ClientHolds(target), Ok(holder))
    case TakeAuthority(_) => (ServerHolds, Ok(holder))
    case _ => (holder, Ok(Nobody))
  }

  /** What a call that names the entity makes of it, and the reply; a panic if nothing. */
  function EntityNext(x: Entity, call: Call): Option<(Entity, Reply)> {
    match call
    case InsertRecord(_, owner) =>
      if x.record.Some? || owner.Local? || owner.ClientPublic? then None
      else Some((x.(record := Some(Record(owner, if owner == EntityOwner.Server then Public else Private))), Ok(Nobody)))
    case RemoveRecord(_) => if x.record.None? then None else Some((x.(record := None), Ok(Nobody)))
    case Publish(_) =>
      if x.record.None? then None
      else
        (match x.record.value.owner
         case Server => Some((x, NotAvailable))
         case Client(u) => Publishes(x, u)
         case ClientPublic(u) => Publishes(x, u)
         case _ => None)
    case Unpublish(_) =>
      if x.record.None? || !x.record.value.owner.ClientPublic? then None
      else Some((x.(record := Some(Record(Client(x.record.value.owner.publisher), Private))), Ok(Nobody)))
    case EnableDelegation(_) =>
      if x.record.None? || x.record.value.publicity != Public || x.holder.Some? then None
      else Some((Entity(Some(x.record.value.(publicity := Delegated)), Some(Nobody)), Ok(Nobody)))
    case DisableDelegation(_) =>
      if x.record.None? || x.record.value.publicity != Delegated then None
      else Some((Entity(Some(x.record.value.(publicity := Public)), None), Ok(Nobody)))
    case Migrate(_) =>
      if x.record.None? || Owned(x, EntityOwner.Server) || Owned(x, Local) then None
      else Some((x.(record := Some(x.record.value.(owner := EntityOwner.Server))), Ok(Nobody)))
    case _ =>
      if !Open(x) then Some((x, NotDelegated))
      else
        var (holder, reply) := Exchanged(x.holder.value, call);
        Some((x.(holder := Some(holder)), reply))
  }

  // ----- what the layers say -----

  function Shown(w: World, g: GlobalEntity): Entity {
    Entity(if g in w.records then Some(w.records[g]) else None, if g in w.auth.owner then Some(w.auth.owner[g]) else None)
  }

  /** A call leaves every other entity alone. */
  lemma OthersUntouched(w: World, call: Call, g: GlobalEntity)
    requires Inv(w) && Apply(w, call).Fine? && g != call.entity
    ensures Shown(Apply(w, call).world, g) == Shown(w, g)
  {
  }

  lemma RequestShown(w: World, g: GlobalEntity, who: AuthOwner)
    requires StatusAgrees(w.auth) && g in w.auth.owner
    ensures var (h, r) := Request(w.auth, g, who);
            g in h.owner && (h.owner[g], r) == Exchanged(w.auth.owner[g], RequestAuthority(g, who))
  {
  }

  lemma ReleaseShown(w: World, g: GlobalEntity, who: AuthOwner)
    requires StatusAgrees(w.auth) && g in w.auth.owner
    ensures var (h, r) := Release(w.auth, g, who);
            g in h.owner && (h.owner[g], r) == Exchanged(w.auth.owner[g], ReleaseAuthority(g, who))
  {
  }

  lemma GiveShown(w: World, g: GlobalEntity, target: UserKey)
    requires StatusAgrees(w.auth) && g in w.auth.owner
    ensures var (h, r) := Give(w.auth, g, target);
            g in h.owner && (h.owner[g], r) == Exchanged(w.auth.owner[g], GiveAuthority(g, target))
  {
  }

  lemma TakeShown(w: World, g: GlobalEntity)
    requires StatusAgrees(w.auth) && g in w.auth.owner
    ensures var (h, r) := Take(w.auth, g);
            g in h.owner && (h.owner[g], r) == Exchanged(w.auth.owner[g], TakeAuthority(g))
  {
  }

  predicate Exchanges(call: Call) {
    call.RequestAuthority? || call.ReleaseAuthority? || call.GiveAuthority? || call.TakeAuthority?
  }

  lemma ExchangeShown(w: World, call: Call)
    requires Inv(w) && Exchanges(call)
    ensures var o, n := Apply(w, call), EntityNext(Shown(w, call.entity), call);
            o.Fine? && n == Some((Shown(o.world, call.entity), o.reply))
  {
    var g := call.entity;
    CallKeeps(w, call);
    if IsDelegated(w, g) {
      hide Request, Release, Give, Take, StatusAgrees;
      match call
      case RequestAuthority(_, who) => RequestShown(w, g, who);
      case ReleaseAuthority(_, who) => ReleaseShown(w, g, who);
      case GiveAuthority(_, target) => GiveShown(w, g, target);
      case TakeAuthority(_) => TakeShown(w, g);
    }
  }

  /**
   Every call: the layers panic exactly when the entity's machine does; otherwise they show its next state and give
   its reply, and the status tells its holder.
   */
  lemma CallShown(w: World, call: Call)
    requires Inv(w)
    ensures var o, n := Apply(w, call), EntityNext(Shown(w, call.entity), call);
            && o.Fine? == n.Some?
            && (o.Fine? ==> n == Some((Shown(o.world, call.entity), o.reply)))
            && (o.Fine? ==> forall g :: g in o.world.auth.owner ==>
                  g in o.world.auth.status && o.world.auth.status[g] == StatusFor(o.world.auth.owner[g]))
  {
    CallKeeps(w, call);
    if Exchanges(call) {
      hide Apply, EntityNext;
      ExchangeShown(w, call);
    } else if call.EnableDelegation? {
      EnableKeeps(w, call.entity);
    }
  }

  // ----- every run -----

  /** The calls that name an entity, in order. */
  function Naming(calls: seq<Call>, g: GlobalEntity): seq<Call> {
    if calls == [] then []
    else
      var n := |calls| - 1;
      Naming(calls[..n], g) + if calls[n].entity == g then [calls[n]] else []
  }

  function EntityRun(calls: seq<Call>): Option<Entity> {
    if calls == [] then Some(Entity(None, None))
    else
      match EntityRun(calls[..|calls| - 1])
      case None => None
      case Some(x) =>
        match EntityNext(x, calls[|calls| - 1])
        case None => None
        case Some((y, _)) => Some(y)
  }

  lemma NamingMore(calls: seq<Call>, g: GlobalEntity)
    requires calls != []
    ensures var n := |calls| - 1;
            var before := Naming(calls[..n], g);
            && (calls[n].entity != g ==> Naming(calls, g) == before)
            && (calls[n].entity == g ==>
                  Naming(calls, g) != [] && Naming(calls, g)[..|Naming(calls, g)| - 1] == before
                  && Naming(calls, g)[|Naming(calls, g)| - 1] == calls[n])
  {
  }

  /** Every run: an entity's record and holder are what the calls that name it make of them, whatever the others do. */
  lemma {:induction false} EveryEntityRunsAlone(calls: seq<Call>, g: GlobalEntity)
    requires Run(calls).Fine?
    ensures EntityRun(Naming(calls, g)) == Some(Shown(Run(calls).world, g))
  {
    if calls != [] {
      hide Apply, EntityNext, Naming;
      var n := |calls| - 1;
      EveryEntityRunsAlone(calls[..n], g);
      EveryRunAgrees(calls[..n]);
      NamingMore(calls, g);
      var w := Run(calls[..n]).world;
      if calls[n].entity == g { CallShown(w, calls[n]); } else { OthersUntouched(w, calls[n], g); }
    }
  }

  /** Exactly which call makes whom the holder. */
  lemma BecomesHolderIff(w: World, call: Call, g: GlobalEntity, who: AuthOwner)
    requires Inv(w) && Apply(w, call).Fine? && who != Nobody && Shown(w, g).holder != Some(who)
    ensures Shown(Apply(w, call).world, g).holder == Some(who) <==>
            && call.entity == g && IsDelegated(w, g)
            && match call
               case RequestAuthority(_, asks) => asks == who && w.auth.owner[g] == Nobody
               case GiveAuthority(_, target) => who == ClientHolds(target)
               case TakeAuthority(_) => who == ServerHolds
               case _ => false
  {
    hide Apply;
    if call.entity == g { CallShown(w, call); } else { OthersUntouched(w, call, g); }
  }

  // ----- what the world server's hand-over amounts to -----

  /** The entity's machine over several calls. */
  function EntityAll(x: Entity, calls: seq<Call>): Option<Entity>
    decreases |calls|
  {
    if calls == [] then Some(x)
    else
      match EntityNext(x, calls[0])
      case None => None
      case Some((y, _)) => EntityAll(y, calls[1..])
  }

  lemma {:induction false} PerformShown(o: Outcome, calls: seq<Call>, g: GlobalEntity)
    requires o.Fine? && Inv(o.world) && forall i :: 0 <= i < |calls| ==> calls[i].entity == g
    ensures var p := Perform(o, calls);
            && p.Fine? == EntityAll(Shown(o.world, g), calls).Some?
            && (p.Fine? ==> EntityAll(Shown(o.world, g), calls) == Some(Shown(p.world, g)))
    decreases |calls|
  {
    hide Apply, EntityNext;
    if calls != [] {
      CallShown(o.world, calls[0]);
      CallKeeps(o.world, calls[0]);
      var o1 := Apply(o.world, calls[0]);
      if o1.Fine? { PerformShown(o1, calls[1..], g); } else { Stays(o1, calls[1..]); }
    }
  }

  lemma Stays(o: Outcome, calls: seq<Call>)
    requires !o.Fine?
    ensures Perform(o, calls) == o
  {
  }

  /** Delegating a client's entity ends with the server owning it and the client holding it, if it was in the client's scope. */
  lemma HandedOver(w: World, g: GlobalEntity, u: UserKey, inScope: bool)
    requires Inv(w)
    ensures var o := Perform(Fine(w, Ok(Nobody)), Calls(w, DelegateForClient(g, u, inScope)));
            var holder := if inScope then ClientHolds(u) else Nobody;
            o.Fine? ==> Shown(o.world, g) == Entity(Some(Record(EntityOwner.Server, Delegated)), Some(holder))
  {
    var calls := Calls(w, DelegateForClient(g, u, inScope));
    PerformShown(Fine(w, Ok(Nobody)), calls, g);
    var rest := if inScope then [RequestAuthority(g, ClientHolds(u))] else [];
    var x := Shown(w, g);
    hide Shown, Perform;
    if g in w.records && w.records[g].owner.Client? {
      assert calls[1..] == [Migrate(g), EnableDelegation(g)] + rest;
      if EntityNext(x, Publish(g)).Some? { MigratedAndDelegated(EntityNext(x, Publish(g)).value.0, g, rest); }
    } else {
      assert calls == [Migrate(g), EnableDelegation(g)] + rest;
      MigratedAndDelegated(x, g, rest);
    }
  }

  lemma MigratedAndDelegated(x: Entity, g: GlobalEntity, rest: seq<Call>)
    requires rest == [] || (|rest| == 1 && rest[0].RequestAuthority? && rest[0].entity == g)
    ensures var y := EntityAll(x, [Migrate(g), EnableDelegation(g)] + rest);
            y.Some? ==> y.value == Entity(Some(Record(EntityOwner.Server, Delegated)), Some(if rest == [] then Nobody else rest[0].who))
  {
    var calls := [Migrate(g), EnableDelegation(g)] + rest;
    assert calls[1..] == [EnableDelegation(g)] + rest && calls[1..][1..] == rest;
    var n1 := EntityNext(x, Migrate(g));
    if n1.Some? {
      assert EntityAll(x, calls) == EntityAll(n1.value.0, calls[1..]);
      var n2 := EntityNext(n1.value.0, EnableDelegation(g));
      if n2.Some? {
        assert EntityAll(x, calls) == EntityAll(n2.value.0, rest);
        if rest != [] { assert rest[1..] == [] && EntityAll(n2.value.0, rest) == Some(EntityNext(n2.value.0, rest[0]).value.0); }
      }
    }
  }
}

/**
 Authority over delegated entities on the server, in two layers: the owner map, the
 server's own status and the per-user index of `server/src/world/server_auth_handler.rs`
 (over `shared/src/world/delegation/host_auth_handler.rs`), and the entity records with
 their publicity in `server/src/world/global_world_manager.rs`.
 */
module Authority {

  type UserKey = nat
  type GlobalEntity = int

  datatype AuthOwner = Nobody | ServerHolds | ClientHolds(user: UserKey)

  datatype Status = Available | Requested | Granted | Releasing | Denied

  datatype Handler = Handler(
    status: map<GlobalEntity, Status>,
    owner: map<GlobalEntity, AuthOwner>,
    listed: map<UserKey, set<GlobalEntity>>)

  /** The reply of an authority call; the last two are panics. */
  datatype Reply =
    | Ok(previous: AuthOwner)
    | NotDelegated
    | NotAvailable
    | NotHolder
    | StatusMissingPanic
    | AlreadyRegisteredPanic

  // ----- the inner layer -----

  function Registered(h: Handler, g: GlobalEntity): (Handler, Reply) {
    if g in h.status then (h, AlreadyRegisteredPanic)
    else (h.(status := h.status[g := Available], owner := h.owner[g := Nobody]), Ok(Nobody))
  }

  function Deregistered(h: Handler, g: GlobalEntity): Handler {
    h.(status := h.status - {g}, owner := h.owner - {g})
  }

  function Listing(listed: map<UserKey, set<GlobalEntity>>, u: UserKey, g: GlobalEntity): map<UserKey, set<GlobalEntity>> {
    listed[u := (if u in listed then listed[u] else {}) + {g}]
  }

  function WithStatus(h: Handler, g: GlobalEntity, s: Status): (Handler, Reply) {
    if g in h.status then (h.(status := h.status[g := s]), Ok(Nobody)) else (h, StatusMissingPanic)
  }

  /** The former holder's whole list goes, not just this entity. */
  function ReleasedAll(h: Handler, g: GlobalEntity, former: AuthOwner): (Handler, Reply) {
    if former.Nobody? then (h, Ok(Nobody))
    else
      var h1 := if former.ClientHolds? then h.(listed := h.listed - {former.user}) else h;
      WithStatus(h1, g, Available)
  }

  function Request(h: Handler, g: GlobalEntity, requester: AuthOwner): (Handler, Reply) {
    if g !in h.owner then (h, NotDelegated)
    else if h.owner[g] != Nobody then (h, NotAvailable)
    else
      match requester
      case ServerHolds => Then(WithStatus(h.(owner := h.owner[g := ServerHolds]), g, Granted), Nobody)
      case ClientHolds(u) =>
        Then(WithStatus(h.(owner := h.owner[g := requester], listed := Listing(h.listed, u, g)), g, Denied), Nobody)
      case Nobody => (h, Ok(Nobody))
  }

  function Then(step: (Handler, Reply), previous: AuthOwner): (Handler, Reply) {
    if step.1.Ok? then (step.0, Ok(previous)) else step
  }

  /** The server may clear anyone's hold, a client only its own. */
  function Release(h: Handler, g: GlobalEntity, releaser: AuthOwner): (Handler, Reply) {
    if g !in h.owner then (h, NotDelegated)
    else
      var former := h.owner[g];
      if former == releaser || releaser == ServerHolds
      then Then(ReleasedAll(h.(owner := h.owner[g := Nobody]), g, former), former)
      else (h, NotHolder)
  }

  function Give(h: Handler, g: GlobalEntity, target: UserKey): (Handler, Reply) {
    if g !in h.owner then (h, NotDelegated)
    else
      var former := h.owner[g];
      if former == ClientHolds(target) then (h, Ok(former))
      else
        var (h1, r) := ReleasedAll(h.(owner := h.owner[g := ClientHolds(target)]), g, former);
        if !r.Ok? then (h1, r)
        else Then(WithStatus(h1.(listed := Listing(h1.listed, target, g)), g, Denied), former)
  }

  function Take(h: Handler, g: GlobalEntity): (Handler, Reply) {
    if g !in h.owner then (h, NotDelegated)
    else
      var former := h.owner[g];
      if former == ServerHolds then (h, Ok(former))
      else
        var (h1, r) := ReleasedAll(h.(owner := h.owner[g := ServerHolds]), g, former);
        if !r.Ok? then (h1, r) else Then(WithStatus(h1, g, Granted), former)
  }

  // ----- the outer layer -----

  datatype EntityOwner = Server | Client(user: UserKey) | ClientWaiting(waiting: UserKey) | ClientPublic(publisher: UserKey) | Local

  datatype Publicity = Private | Public | Delegated

  datatype Record = Record(owner: EntityOwner, publicity: Publicity)

  datatype World = World(records: map<GlobalEntity, Record>, auth: Handler)

  predicate IsDelegated(w: World, g: GlobalEntity) {
    g in w.records && w.records[g].publicity == Delegated
  }

  predicate IsPublic(w: World, g: GlobalEntity) {
    g in w.records && w.records[g].publicity == Public
  }

  datatype Call =
    | InsertRecord(entity: GlobalEntity, owner: EntityOwner)
    | RemoveRecord(entity: GlobalEntity)
    | Publish(entity: GlobalEntity)
    | Unpublish(entity: GlobalEntity)
    | EnableDelegation(entity: GlobalEntity)
    | DisableDelegation(entity: GlobalEntity)
    | Migrate(entity: GlobalEntity)
    | RequestAuthority(entity: GlobalEntity, who: AuthOwner)
    | ReleaseAuthority(entity: GlobalEntity, who: AuthOwner)
    | GiveAuthority(entity: GlobalEntity, target: UserKey)
    | TakeAuthority(entity: GlobalEntity)

  /** `Refused` is a panic the call makes by design; `Broken` one that says the two layers disagree. */
  datatype Outcome = Fine(world: World, reply: Reply) | Refused | Broken(why: Reply)

  function Settle(w: World, step: (Handler, Reply)): Outcome {
    if step.1.StatusMissingPanic? || step.1.AlreadyRegisteredPanic? then Broken(step.1)
    else Fine(w.(auth := step.0), step.1)
  }

  function SetRecord(w: World, g: GlobalEntity, r: Record): Outcome {
    Fine(w.(records := w.records[g := r]), Ok(Nobody))
  }

  function Published(w: World, g: GlobalEntity): Outcome {
    if g !in w.records then Refused
    else
      match w.records[g].owner
      case Local => Refused
      case Server => Fine(w, NotAvailable)
      case ClientWaiting(_) => Refused
      case Client(u) => SetRecord(w, g, Record(ClientPublic(u), Public))
      case ClientPublic(u) => SetRecord(w, g, Record(ClientPublic(u), Public))
  }

  function Apply(w: World, call: Call): Outcome {
    match call
    case InsertRecord(g, owner) =>
      if g in w.records || owner.ClientPublic? || owner.Local? then Refused
      else SetRecord(w, g, Record(owner, if owner.Server? then Public else Private))
    case RemoveRecord(g) =>
      if g !in w.records then Refused else Fine(w.(records := w.records - {g}), Ok(Nobody))
    case Publish(g) => Published(w, g)
    case Unpublish(g) =>
      if g in w.records && w.records[g].owner.ClientPublic?
      then SetRecord(w, g, Record(Client(w.records[g].owner.publisher), Private)) else Refused
    case EnableDelegation(g) =>
      if !IsPublic(w, g) then Refused
      else Settle(w.(records := w.records[g := w.records[g].(publicity := Delegated)]), Registered(w.auth, g))
    case DisableDelegation(g) =>
      if !IsDelegated(w, g) then Refused
      else Fine(World(w.records[g := w.records[g].(publicity := Public)], Deregistered(w.auth, g)), Ok(Nobody))
    case Migrate(g) =>
      if g in w.records && (w.records[g].owner.Client? || w.records[g].owner.ClientPublic? || w.records[g].owner.ClientWaiting?)
      then SetRecord(w, g, w.records[g].(owner := Server)) else Refused
    case RequestAuthority(g, who) => if !IsDelegated(w, g) then Fine(w, NotDelegated) else Settle(w, Request(w.auth, g, who))
    case ReleaseAuthority(g, who) => if !IsDelegated(w, g) then Fine(w, NotDelegated) else Settle(w, Release(w.auth, g, who))
    case GiveAuthority(g, target) => if !IsDelegated(w, g) then Fine(w, NotDelegated) else Settle(w, Give(w.auth, g, target))
    case TakeAuthority(g) => if !IsDelegated(w, g) then Fine(w, NotDelegated) else Settle(w, Take(w.auth, g))
  }

  // ----- agreement -----

  function StatusFor(o: AuthOwner): Status {
    match o
    case Nobody => Available
    case ServerHolds => Granted
    case ClientHolds(_) => Denied
  }

  /** The server's status tells who holds: Granted itself, Denied some client, Available nobody. */
  ghost predicate StatusAgrees(h: Handler) {
    && h.status.Keys == h.owner.Keys
    && forall g :: g in h.owner ==> h.status[g] == StatusFor(h.owner[g])
  }

  ghost predicate Inv(w: World) {
    && StatusAgrees(w.auth)
    && forall g :: IsDelegated(w, g) ==> g in w.auth.owner
  }

  /** A step of the inner layer that neither registers nor panics, and leaves the status telling the holder. */
  ghost predicate Sound(h: Handler, step: (Handler, Reply)) {
    && StatusAgrees(step.0) && step.0.owner.Keys == h.owner.Keys
    && !step.1.StatusMissingPanic? && !step.1.AlreadyRegisteredPanic?
  }

  lemma RequestSound(h: Handler, g: GlobalEntity, who: AuthOwner)
    requires StatusAgrees(h)
    ensures Sound(h, Request(h, g, who))
  {
  }

  lemma ReleaseSound(h: Handler, g: GlobalEntity, who: AuthOwner)
    requires StatusAgrees(h)
    ensures Sound(h, Release(h, g, who))
  {
  }

  lemma GiveSound(h: Handler, g: GlobalEntity, target: UserKey)
    requires StatusAgrees(h)
    ensures Sound(h, Give(h, g, target))
  {
  }

  lemma TakeSound(h: Handler, g: GlobalEntity)
    requires StatusAgrees(h)
    ensures Sound(h, Take(h, g))
  {
  }

  lemma SettleKeeps(w: World, step: (Handler, Reply))
    requires Inv(w) && Sound(w.auth, step)
    ensures Settle(w, step).Fine? && Inv(Settle(w, step).world)
  {
  }

  /** Every call keeps the agreement; only delegating an entity that is still registered breaks. */
  lemma CallKeeps(w: World, call: Call)
    requires Inv(w)
    ensures var o := Apply(w, call);
            && (o.Fine? ==> Inv(o.world))
            && (o.Broken? <==> call.EnableDelegation? && IsPublic(w, call.entity) && call.entity in w.auth.owner)
            && (o.Broken? ==> o.why == AlreadyRegisteredPanic)
  {
    hide Request, Release, Give, Take, Sound, Settle;
    match call
    case RequestAuthority(g, who) => RequestSound(w.auth, g, who); SettleKeeps(w, Request(w.auth, g, who));
    case ReleaseAuthority(g, who) => ReleaseSound(w.auth, g, who); SettleKeeps(w, Release(w.auth, g, who));
    case GiveAuthority(g, target) => GiveSound(w.auth, g, target); SettleKeeps(w, Give(w.auth, g, target));
    case TakeAuthority(g) => TakeSound(w.auth, g); SettleKeeps(w, Take(w.auth, g));
    case EnableDelegation(g) => EnableKeeps(w, g);
    case _ =>
  }

  lemma EnableKeeps(w: World, g: GlobalEntity)
    requires Inv(w)
    ensures var o := Apply(w, EnableDelegation(g));
            && (o.Fine? ==> Inv(o.world))
            && (o.Broken? <==> IsPublic(w, g) && g in w.auth.owner)
            && (o.Broken? ==> o.why == AlreadyRegisteredPanic)
  {
  }

  /** A call that gets past the delegation guard is never told NotDelegated by the inner layer. */
  lemma GuardedCallsAreDelegated(w: World, g: GlobalEntity, who: AuthOwner, target: UserKey)
    requires Inv(w) && IsDelegated(w, g)
    ensures Request(w.auth, g, who).1 != NotDelegated && Release(w.auth, g, who).1 != NotDelegated
    ensures Give(w.auth, g, target).1 != NotDelegated && Take(w.auth, g).1 != NotDelegated
  {
  }

  // ----- every run -----

  const EMPTY: World := World(map[], Handler(map[], map[], map[]))

  /** A run ends at its first panic. */
  function Run(calls: seq<Call>): Outcome {
    if calls == [] then Fine(EMPTY, Ok(Nobody))
    else
      match Run(calls[..|calls| - 1])
      case Fine(w, _) => Apply(w, calls[|calls| - 1])
      case stopped => stopped
  }

  lemma {:induction false} EveryRunAgrees(calls: seq<Call>)
    ensures Run(calls).Fine? ==> Inv(Run(calls).world)
    ensures Run(calls).Broken? ==> Run(calls).why == AlreadyRegisteredPanic
  {
    if calls != [] {
      EveryRunAgrees(calls[..|calls| - 1]);
      if Run(calls[..|calls| - 1]).Fine? {
        CallKeeps(Run(calls[..|calls| - 1]).world, calls[|calls| - 1]);
      }
    }
  }

  /** Exactly what ends a client's hold: its own release, or the server's release, gift elsewhere, take or disabling. */
  lemma HoldEndsExactlyBy(w: World, call: Call, g: GlobalEntity, u: UserKey)
    requires Inv(w) && g in w.auth.owner && w.auth.owner[g] == ClientHolds(u)
    requires Apply(w, call).Fine?
    ensures var h := Apply(w, call).world.auth;
            (g in h.owner && h.owner[g] == ClientHolds(u)) <==>
            !(&& call.entity == g && IsDelegated(w, g)
              && match call
                 case ReleaseAuthority(_, who) => who == ClientHolds(u) || who == ServerHolds
                 case GiveAuthority(_, target) => target != u
                 case TakeAuthority(_) => true
                 case DisableDelegation(_) => true
                 case _ => false)
  {
  }

  // ----- when registration and delegation coincide -----

  /** Registered with the inner layer exactly when marked delegated. */
  ghost predicate Tidy(w: World) {
    forall g :: g in w.auth.owner <==> IsDelegated(w, g)
  }

  /** Republishing, unpublishing or despawning an entity while it is delegated leaves its registration behind. */
  predicate Careless(w: World, call: Call) {
    match call
    case Publish(g) => IsDelegated(w, g) && w.records[g].owner.ClientPublic?
    case Unpublish(g) => IsDelegated(w, g)
    case RemoveRecord(g) => IsDelegated(w, g)
    case _ => false
  }

  /** A record still owned privately by its client is never delegated. */
  ghost predicate ClientsArePrivate(w: World) {
    forall g :: g in w.records && w.records[g].owner.Client? ==> w.records[g].publicity == Private
  }

  lemma TidyIff(w: World, call: Call)
    requires Inv(w) && Tidy(w) && ClientsArePrivate(w) && Apply(w, call).Fine?
    ensures Tidy(Apply(w, call).world) <==> !Careless(w, call)
    ensures ClientsArePrivate(Apply(w, call).world)
  {
    var w' := Apply(w, call).world;
    if Careless(w, call) {
      assert call.entity in w'.auth.owner && !IsDelegated(w', call.entity);
    }
  }

  ghost predicate AllCareful(calls: seq<Call>) {
    forall n :: 0 <= n < |calls| && Run(calls[..n]).Fine? ==> !Careless(Run(calls[..n]).world, calls[n])
  }

  /** Without careless calls the two layers never disagree: no run breaks. */
  lemma {:induction false} CarefulRunsNeverBreak(calls: seq<Call>)
    requires AllCareful(calls)
    ensures !Run(calls).Broken?
    ensures Run(calls).Fine? ==> Tidy(Run(calls).world) && ClientsArePrivate(Run(calls).world)
  {
    if calls != [] {
      var n := |calls| - 1;
      var before := calls[..n];
      forall k | 0 <= k < n ensures before[..k] == calls[..k] {}
      CarefulRunsNeverBreak(before);
      EveryRunAgrees(before);
      if Run(before).Fine? {
        var w := Run(before).world;
        CallKeeps(w, calls[n]);
        if Apply(w, calls[n]).Fine? { TidyIff(w, calls[n]); }
      }
    }
  }

  /** One careless call on the component is enough: a delegated entity published again cannot be delegated again. */
  lemma RepublishingBreaksDelegation(g: GlobalEntity, u: UserKey)
    ensures Run([InsertRecord(g, Client(u)), Publish(g), EnableDelegation(g), Publish(g), EnableDelegation(g)])
            == Broken(AlreadyRegisteredPanic)
  {
    var w1 := RunNext([], EMPTY, InsertRecord(g, Client(u)));
    var c1: seq<Call> := [] + [InsertRecord(g, Client(u))];
    var w2 := RunNext(c1, w1, Publish(g));
    var c2 := c1 + [Publish(g)];
    var w3 := RunNext(c2, w2, EnableDelegation(g));
    var c3 := c2 + [EnableDelegation(g)];
    var w4 := RunNext(c3, w3, Publish(g));
    var calls := [InsertRecord(g, Client(u)), Publish(g), EnableDelegation(g), Publish(g), EnableDelegation(g)];
    assert calls[..4] == c3 + [Publish(g)];
  }

  lemma RunNext(calls: seq<Call>, w: World, call: Call) returns (w': World)
    requires Run(calls).Fine? && Run(calls).world == w && Apply(w, call).Fine?
    ensures Run(calls + [call]).Fine? && Run(calls + [call]).world == w' == Apply(w, call).world
  {
    assert (calls + [call])[..|calls|] == calls;
    w' := Apply(w, call).world;
  }

  // ----- what the world server makes of it -----

  /** What the world server does for its callers, `server/src/server/world_server.rs`. */
  datatype Task =
    | SpawnServerEntity(entity: GlobalEntity)
    | SpawnClientEntity(entity: GlobalEntity, user: UserKey)
    | PublishEntity(entity: GlobalEntity)
    | UnpublishEntity(entity: GlobalEntity)
    | Delegate(entity: GlobalEntity)
    | DelegateForClient(entity: GlobalEntity, user: UserKey, inScope: bool)
    | Undelegate(entity: GlobalEntity)
    | Despawn(entity: GlobalEntity)
    | Exchange(call: Call)

  predicate OwnedBy(w: World, g: GlobalEntity, o: EntityOwner) {
    g in w.records && w.records[g].owner == o
  }

  /**
   The calls a task makes. A client's entity is published if need be and handed to the server before it is
   delegated, and its former owner gets the authority if the entity is in its scope.
   */
  function Calls(w: World, t: Task): seq<Call> {
    match t
    case SpawnServerEntity(g) => [InsertRecord(g, Server)]
    case SpawnClientEntity(g, u) => [InsertRecord(g, Client(u))]
    case PublishEntity(g) => [Publish(g)]
    case UnpublishEntity(g) => [Unpublish(g)]
    case Delegate(g) => if OwnedBy(w, g, Server) then [EnableDelegation(g)] else []
    case DelegateForClient(g, u, inScope) =>
      (if g in w.records && w.records[g].owner.Client? then [Publish(g)] else [])
      + [Migrate(g), EnableDelegation(g)]
      + (if inScope then [RequestAuthority(g, ClientHolds(u))] else [])
    case Undelegate(g) => [DisableDelegation(g)]
    case Despawn(g) => [RemoveRecord(g)]
    case Exchange(call) =>
      if call.RequestAuthority? || call.ReleaseAuthority? || call.GiveAuthority? || call.TakeAuthority? then [call] else []
  }

  function Perform(o: Outcome, calls: seq<Call>): Outcome
    decreases |calls|
  {
    if calls == [] || !o.Fine? then o else Perform(Apply(o.world, calls[0]), calls[1..])
  }

  /** Entity keys are never reused; `leaked` are the entities despawned while delegated. */
  datatype Serving = Serving(outcome: Outcome, used: set<GlobalEntity>, leaked: set<GlobalEntity>)

  predicate Spawns(t: Task) {
    t.SpawnServerEntity? || t.SpawnClientEntity?
  }

  function Served(s: Serving, t: Task): Serving {
    if !s.outcome.Fine? || (Spawns(t) && t.entity in s.used) then s
    else
      var w := s.outcome.world;
      Serving(Perform(s.outcome, Calls(w, t)),
             if Spawns(t) then s.used + {t.entity} else s.used,
             if t.Despawn? && IsDelegated(w, t.entity) then s.leaked + {t.entity} else s.leaked)
  }

  function ServedAll(tasks: seq<Task>): Serving {
    if tasks == [] then Serving(Fine(EMPTY, Ok(Nobody)), {}, {})
    else Served(ServedAll(tasks[..|tasks| - 1]), tasks[|tasks| - 1])
  }

  /** A delegated entity is the server's; what is registered is delegated or was despawned while delegated. */
  ghost predicate CallerInv(s: Serving) {
    && !s.outcome.Broken?
    && (s.outcome.Fine? ==>
          var w := s.outcome.world;
          && Inv(w)
          && (forall g :: IsDelegated(w, g) ==> w.records[g].owner == EntityOwner.Server)
          && (forall g :: g in w.auth.owner <==> IsDelegated(w, g) || g in s.leaked)
          && (forall g :: g in s.leaked ==> g in s.used && g !in w.records)
          && (forall g :: g in w.records ==> g in s.used))
  }

  /** One call that neither delegates nor touches records of delegated entities. */
  lemma PlainCall(s: Serving, call: Call, used: set<GlobalEntity>)
    requires CallerInv(s) && s.outcome.Fine? && !call.EnableDelegation? && !call.RemoveRecord?
    requires call.InsertRecord? ==> call.entity !in s.used
    requires used == if call.InsertRecord? then s.used + {call.entity} else s.used
    ensures CallerInv(Serving(Apply(s.outcome.world, call), used, s.leaked))
  {
    CallKeeps(s.outcome.world, call);
    hide StatusAgrees;
  }

  /** Delegating the server's own entity is never refused by the inner layer. */
  lemma DelegateCall(s: Serving, g: GlobalEntity)
    requires CallerInv(s) && s.outcome.Fine? && OwnedBy(s.outcome.world, g, EntityOwner.Server)
    ensures CallerInv(s.(outcome := Apply(s.outcome.world, EnableDelegation(g))))
  {
    CallKeeps(s.outcome.world, EnableDelegation(g));
    hide StatusAgrees;
  }

  lemma DespawnCall(s: Serving, g: GlobalEntity)
    requires CallerInv(s) && s.outcome.Fine?
    ensures CallerInv(Served(s, Despawn(g)))
  {
    var w := s.outcome.world;
    CallKeeps(w, RemoveRecord(g));
    hide StatusAgrees;
    PerformOne(s.outcome, RemoveRecord(g), []);
    assert [RemoveRecord(g)] == [RemoveRecord(g)] + [];
  }

  lemma PerformOne(o: Outcome, call: Call, rest: seq<Call>)
    ensures Perform(o, []) == o
    ensures o.Fine? ==> Perform(o, [call] + rest) == Perform(Apply(o.world, call), rest)
    ensures !o.Fine? ==> Perform(o, rest) == o
  {
    assert ([call] + rest)[1..] == rest;
  }

  /** Handing a client's entity over to the server and delegating it. */
  lemma HandOverCalls(s: Serving, g: GlobalEntity, rest: seq<Call>)
    requires CallerInv(s) && s.outcome.Fine? && (rest == [] || (|rest| == 1 && rest[0].RequestAuthority?))
    ensures CallerInv(s.(outcome := Perform(s.outcome, [Migrate(g), EnableDelegation(g)] + rest)))
  {
    hide CallerInv, Apply;
    var o1 := Apply(s.outcome.world, Migrate(g));
    assert [Migrate(g), EnableDelegation(g)] + rest == [Migrate(g)] + ([EnableDelegation(g)] + rest);
    PerformOne(s.outcome, Migrate(g), [EnableDelegation(g)] + rest);
    PlainCall(s, Migrate(g), s.used);
    assert s.(outcome := o1) == Serving(o1, s.used, s.leaked);
    if o1.Fine? {
      assert OwnedBy(o1.world, g, EntityOwner.Server) by { MigratedIsServers(s.outcome.world, g); }
      var s1 := s.(outcome := o1);
      var o2 := Apply(o1.world, EnableDelegation(g));
      PerformOne(o1, EnableDelegation(g), rest);
      DelegateCall(s1, g);
      FinishCalls(s1.(outcome := o2), rest);
    } else {
      PerformOne(o1, Migrate(g), [EnableDelegation(g)] + rest);
    }
  }

  lemma MigratedIsServers(w: World, g: GlobalEntity)
    requires Apply(w, Migrate(g)).Fine?
    ensures OwnedBy(Apply(w, Migrate(g)).world, g, EntityOwner.Server)
  {
  }

  /** At most one plain call is left to make. */
  lemma FinishCalls(s: Serving, rest: seq<Call>)
    requires CallerInv(s)
    requires rest == [] || (|rest| == 1 && !rest[0].EnableDelegation? && !rest[0].RemoveRecord? && !rest[0].InsertRecord?)
    ensures CallerInv(s.(outcome := Perform(s.outcome, rest)))
  {
    hide CallerInv, Apply;
    if rest == [] || !s.outcome.Fine? {
      PerformOne(s.outcome, TakeAuthority(0), rest);
      assert s.(outcome := s.outcome) == s;
    } else {
      assert rest == [rest[0]] + [];
      PerformOne(s.outcome, rest[0], []);
      PerformOne(Apply(s.outcome.world, rest[0]), rest[0], []);
      PlainCall(s, rest[0], s.used);
    }
  }

  lemma ClientTask(s: Serving, g: GlobalEntity, u: UserKey, inScope: bool)
    requires CallerInv(s) && s.outcome.Fine?
    ensures CallerInv(Served(s, DelegateForClient(g, u, inScope)))
  {
    hide CallerInv, Apply;
    var w := s.outcome.world;
    var rest := if inScope then [RequestAuthority(g, ClientHolds(u))] else [];
    if g in w.records && w.records[g].owner.Client? {
      var tail := [Migrate(g), EnableDelegation(g)] + rest;
      assert Calls(w, DelegateForClient(g, u, inScope)) == [Publish(g)] + tail;
      PerformOne(s.outcome, Publish(g), tail);
      PlainCall(s, Publish(g), s.used);
      var s1 := s.(outcome := Apply(w, Publish(g)));
      assert s1 == Serving(Apply(w, Publish(g)), s.used, s.leaked);
      if s1.outcome.Fine? { HandOverCalls(s1, g, rest); } else { PerformOne(s1.outcome, Publish(g), tail); }
    } else {
      assert Calls(w, DelegateForClient(g, u, inScope)) == [Migrate(g), EnableDelegation(g)] + rest;
      HandOverCalls(s, g, rest);
    }
  }

  lemma SpawnTask(s: Serving, g: GlobalEntity, owner: EntityOwner)
    requires CallerInv(s) && s.outcome.Fine? && g !in s.used
    ensures CallerInv(Serving(Perform(s.outcome, [InsertRecord(g, owner)]), s.used + {g}, s.leaked))
  {
    hide CallerInv, Apply;
    assert [InsertRecord(g, owner)] == [InsertRecord(g, owner)] + [];
    PerformOne(s.outcome, InsertRecord(g, owner), []);
    PerformOne(Apply(s.outcome.world, InsertRecord(g, owner)), InsertRecord(g, owner), []);
    PlainCall(s, InsertRecord(g, owner), s.used + {g});
  }

  lemma ServedKeeps(s: Serving, t: Task)
    requires CallerInv(s)
    ensures CallerInv(Served(s, t))
  {
    hide CallerInv, Apply, Perform;
    if s.outcome.Fine? && !(Spawns(t) && t.entity in s.used) {
      match t
      case SpawnServerEntity(g) => SpawnTask(s, g, EntityOwner.Server);
      case SpawnClientEntity(g, u) => SpawnTask(s, g, Client(u));
      case Delegate(g) =>
        if OwnedBy(s.outcome.world, g, EntityOwner.Server) {
          DelegateCall(s, g);
          assert [EnableDelegation(g)] == [EnableDelegation(g)] + [];
          PerformOne(s.outcome, EnableDelegation(g), []);
          FinishCalls(s.(outcome := Apply(s.outcome.world, EnableDelegation(g))), []);
        } else {
          FinishCalls(s, []);
        }
      case DelegateForClient(g, u, inScope) => ClientTask(s, g, u, inScope);
      case Despawn(g) => DespawnCall(s, g);
      case _ => FinishCalls(s, Calls(s.outcome.world, t));
    }
  }

  /**
   In every run of the world server no call breaks, a delegated entity is the server's, and a registration is left
   behind exactly for each entity despawned while delegated.
   */
  lemma {:induction false} CallersNeverBreak(tasks: seq<Task>)
    ensures CallerInv(ServedAll(tasks))
  {
    hide Served;
    if tasks == [] {
      NothingServed();
    } else {
      CallersNeverBreak(tasks[..|tasks| - 1]);
      ServedKeeps(ServedAll(tasks[..|tasks| - 1]), tasks[|tasks| - 1]);
    }
  }

  lemma NothingServed()
    ensures CallerInv(ServedAll([]))
  {
  }

  /** So of the careless calls only despawning is left: publishing a delegated entity changes nothing, unpublishing it is refused. */
  lemma OnlyDespawningIsCareless(tasks: seq<Task>, g: GlobalEntity)
    requires ServedAll(tasks).outcome.Fine? && IsDelegated(ServedAll(tasks).outcome.world, g)
    ensures var w := ServedAll(tasks).outcome.world;
            Apply(w, Publish(g)) == Fine(w, NotAvailable) && Apply(w, Unpublish(g)) == Refused && !Careless(w, Publish(g))
  {
    hide ServedAll;
    CallersNeverBreak(tasks);
  }

  /** Despawning a delegated entity leaves its registration behind without a record. */
  lemma DespawnLeaksRegistration(tasks: seq<Task>, g: GlobalEntity)
    requires ServedAll(tasks).outcome.Fine? && IsDelegated(ServedAll(tasks).outcome.world, g)
    ensures var s := ServedAll(tasks + [Despawn(g)]);
            s.outcome.Fine? && g in s.outcome.world.auth.owner && g !in s.outcome.world.records
  {
    assert (tasks + [Despawn(g)])[..|tasks|] == tasks;
    CallersNeverBreak(tasks);
    var w := ServedAll(tasks).outcome.world;
    assert [RemoveRecord(g)] == [RemoveRecord(g)] + [];
    PerformOne(ServedAll(tasks).outcome, RemoveRecord(g), []);
  }

  /** The shortest run that leaves one behind. */
  lemma DelegatedAndDespawned(g: GlobalEntity)
    ensures var s := ServedAll([SpawnServerEntity(g), Delegate(g)] + [Despawn(g)]);
            s.outcome.Fine? && g in s.outcome.world.auth.owner && g !in s.outcome.world.records
  {
    var tasks := [SpawnServerEntity(g), Delegate(g)];
    assert tasks[..1] == [SpawnServerEntity(g)] && [SpawnServerEntity(g)][..0] == [];
    var s0 := ServedAll([]);
    var s1 := Served(s0, SpawnServerEntity(g));
    assert [InsertRecord(g, EntityOwner.Server)] == [InsertRecord(g, EntityOwner.Server)] + [];
    PerformOne(s0.outcome, InsertRecord(g, EntityOwner.Server), []);
    PerformOne(s1.outcome, InsertRecord(g, EntityOwner.Server), []);
    assert [EnableDelegation(g)] == [EnableDelegation(g)] + [];
    PerformOne(s1.outcome, EnableDelegation(g), []);
    PerformOne(Apply(s1.outcome.world, EnableDelegation(g)), EnableDelegation(g), []);
    assert ServedAll(tasks) == Served(s1, Delegate(g));
    DespawnLeaksRegistration(tasks, g);
  }

  // ----- the per-user index -----

  /** Every entity listed for a user is held by that user. */
  ghost predicate ListsSound(h: Handler) {
    forall u, g :: u in h.listed && g in h.listed[u] ==> g in h.owner && h.owner[g] == ClientHolds(u)
  }

  /** Every entity a user holds is listed for it. */
  ghost predicate ListsComplete(h: Handler) {
    forall g :: g in h.owner && h.owner[g].ClientHolds? ==> h.owner[g].user in h.listed && g in h.listed[h.owner[g].user]
  }

  ghost predicate IsListed(h: Handler, g: GlobalEntity) {
    exists u :: u in h.listed && g in h.listed[u]
  }

  /** The lists stay sound under every call but one: disabling delegation of an entity that is still listed. */
  lemma ListsSoundIff(w: World, call: Call)
    requires Inv(w) && ListsSound(w.auth) && Apply(w, call).Fine?
    ensures ListsSound(Apply(w, call).world.auth) <==>
            !(call.DisableDelegation? && IsListed(w.auth, call.entity))
  {
    var h, h' := w.auth, Apply(w, call).world.auth;
    if call.DisableDelegation? && IsListed(h, call.entity) {
      var u :| u in h.listed && call.entity in h.listed[u];
      assert u in h'.listed && call.entity in h'.listed[u] && call.entity !in h'.owner;
    }
  }

  ghost predicate NoListedDisabled(calls: seq<Call>) {
    forall n :: 0 <= n < |calls| && Run(calls[..n]).Fine? && calls[n].DisableDelegation? ==>
      !IsListed(Run(calls[..n]).world.auth, calls[n].entity)
  }

  lemma {:induction false} ListsStaySound(calls: seq<Call>)
    requires NoListedDisabled(calls)
    ensures Run(calls).Fine? ==> ListsSound(Run(calls).world.auth)
  {
    if calls != [] {
      var n := |calls| - 1;
      var before := calls[..n];
      forall k | 0 <= k < n ensures before[..k] == calls[..k] {}
      ListsStaySound(before);
      EveryRunAgrees(before);
      if Run(before).Fine? && Apply(Run(before).world, calls[n]).Fine? {
        ListsSoundIff(Run(before).world, calls[n]);
      }
    }
  }

  /** The call takes an entity from the client that holds it, other than by disabling delegation. */
  predicate TakesFromHolder(w: World, call: Call) {
    && IsDelegated(w, call.entity) && call.entity in w.auth.owner && w.auth.owner[call.entity].ClientHolds?
    && match call
       case ReleaseAuthority(g, who) => who == w.auth.owner[g] || who == ServerHolds
       case GiveAuthority(g, target) => ClientHolds(target) != w.auth.owner[g]
       case TakeAuthority(_) => true
       case _ => false
  }

  ghost predicate HoldsAnother(h: Handler, g: GlobalEntity) {
    exists g' :: g' != g && g in h.owner && g' in h.owner && h.owner[g'] == h.owner[g]
  }

  /** Losing one entity empties the holder's list: the index stays complete exactly if nothing else was held. */
  lemma ListsCompleteIff(w: World, call: Call)
    requires Inv(w) && ListsComplete(w.auth) && Apply(w, call).Fine?
    ensures ListsComplete(Apply(w, call).world.auth) <==> !(TakesFromHolder(w, call) && HoldsAnother(w.auth, call.entity))
  {
    hide StatusAgrees;
    if TakesFromHolder(w, call) {
      var h, h', g := w.auth, Apply(w, call).world.auth, call.entity;
      TakenList(w, call);
      if HoldsAnother(h, g) {
        var g' :| g' != g && g' in h.owner && h.owner[g'] == h.owner[g];
        assert g' in h'.owner && h'.owner[g'] == h.owner[g];
      }
    } else {
      OthersKeepComplete(w, call);
    }
  }

  /** The former holder's list is gone; everything else is as it was, but for the new holder's listing. */
  lemma TakenList(w: World, call: Call)
    requires Inv(w) && TakesFromHolder(w, call) && Apply(w, call).Fine?
    ensures var h, h', g := w.auth, Apply(w, call).world.auth, call.entity;
            var u := h.owner[g].user;
            && u !in h'.listed
            && (forall v :: v != u && v in h.listed ==> v in h'.listed && h.listed[v] <= h'.listed[v])
            && (forall g' :: g' != g && g' in h.owner ==> g' in h'.owner && h'.owner[g'] == h.owner[g'])
            && (forall g' :: g' in h'.owner ==> g' in h.owner)
            && g in h'.owner && h'.owner[g] != h.owner[g]
            && (h'.owner[g].ClientHolds? ==> h'.owner[g].user in h'.listed && g in h'.listed[h'.owner[g].user])
  {
  }

  lemma OthersKeepComplete(w: World, call: Call)
    requires Inv(w) && ListsComplete(w.auth) && Apply(w, call).Fine? && !TakesFromHolder(w, call)
    ensures ListsComplete(Apply(w, call).world.auth)
  {
    hide StatusAgrees;
  }

  /** No call of the run takes an entity from a user that holds another. */
  ghost predicate OneAtATime(calls: seq<Call>) {
    forall n :: 0 <= n < |calls| && Run(calls[..n]).Fine? ==>
      !(TakesFromHolder(Run(calls[..n]).world, calls[n]) && HoldsAnother(Run(calls[..n]).world.auth, calls[n].entity))
  }

  lemma {:induction false} ListsStayComplete(calls: seq<Call>)
    requires OneAtATime(calls)
    ensures Run(calls).Fine? ==> ListsComplete(Run(calls).world.auth)
  {
    hide TakesFromHolder, HoldsAnother, Apply;
    if calls != [] {
      var n := |calls| - 1;
      var before := calls[..n];
      forall k | 0 <= k < n ensures before[..k] == calls[..k] {}
      ListsStayComplete(before);
      EveryRunAgrees(before);
      if Run(before).Fine? && Apply(Run(before).world, calls[n]).Fine? {
        ListsCompleteIff(Run(before).world, calls[n]);
      }
    }
  }

  /** So a client that takes two entities and gives one back is listed with none, while still holding the other. */
  lemma ReleasingOneUnlistsTheOther(a: GlobalEntity, b: GlobalEntity, u: UserKey)
    requires a != b
    ensures var h0 := Handler(map[a := Available, b := Available], map[a := Nobody, b := Nobody], map[]);
            var h := Release(Request(Request(h0, a, ClientHolds(u)).0, b, ClientHolds(u)).0, a, ClientHolds(u)).0;
            h.owner[b] == ClientHolds(u) && u !in h.listed && h.status[b] == Denied
  {
  }

  predicate HeldBy(w: World, u: UserKey, g: GlobalEntity) {
    g in w.auth.owner && w.auth.owner[g] == ClientHolds(u)
  }

  /** A leaving user releases what was listed for it, in whatever order. */
  function Left(w: World, u: UserKey, order: seq<GlobalEntity>): World
    decreases |order|
  {
    if order == [] then w
    else
      var o := Apply(w, ReleaseAuthority(order[0], ClientHolds(u)));
      Left(if o.Fine? then o.world else w, u, order[1..])
  }

  lemma {:induction false} LeavingReleases(w: World, u: UserKey, order: seq<GlobalEntity>, g: GlobalEntity)
    requires Inv(w)
    ensures Inv(Left(w, u, order))
    ensures HeldBy(Left(w, u, order), u, g) <==> HeldBy(w, u, g) && !(g in order && IsDelegated(w, g))
    decreases |order|
  {
    if order != [] {
      var call := ReleaseAuthority(order[0], ClientHolds(u));
      var o := Apply(w, call);
      CallKeeps(w, call);
      ReleasesOne(w, order[0], u, g);
      hide Inv, Apply, HeldBy;
      assert g in order <==> g == order[0] || g in order[1..];
      LeavingReleases(o.world, u, order[1..], g);
    }
  }

  lemma ReleasesOne(w: World, first: GlobalEntity, u: UserKey, g: GlobalEntity)
    requires Inv(w)
    ensures var o := Apply(w, ReleaseAuthority(first, ClientHolds(u)));
            && o.Fine? && (IsDelegated(o.world, g) <==> IsDelegated(w, g))
            && (HeldBy(o.world, u, g) <==> HeldBy(w, u, g) && !(g == first && IsDelegated(w, g)))
  {
    CallKeeps(w, ReleaseAuthority(first, ClientHolds(u)));
    if HeldBy(w, u, g) { HoldEndsExactlyBy(w, ReleaseAuthority(first, ClientHolds(u)), g, u); }
  }

  /** A user leaves nothing behind if and only if everything it held was listed and still has its record. */
  lemma LeavesNothingIff(w: World, u: UserKey, order: seq<GlobalEntity>)
    requires Inv(w) && forall g :: g in order <==> u in w.auth.listed && g in w.auth.listed[u]
    ensures (forall g :: !HeldBy(Left(w, u, order), u, g)) <==>
            (forall g :: HeldBy(w, u, g) ==> u in w.auth.listed && g in w.auth.listed[u] && IsDelegated(w, g))
  {
    hide Inv, HeldBy, Left, IsDelegated;
    forall g
      ensures HeldBy(Left(w, u, order), u, g) <==>
              HeldBy(w, u, g) && !(u in w.auth.listed && g in w.auth.listed[u] && IsDelegated(w, g))
    {
      LeavingReleases(w, u, order, g);
    }
  }

  function BothDelegated(a: GlobalEntity, b: GlobalEntity): World {
    World(map[a := Record(EntityOwner.Server, Delegated), b := Record(EntityOwner.Server, Delegated)],
          Handler(map[a := Available, b := Available], map[a := Nobody, b := Nobody], map[]))
  }

  lemma DelegateBoth(a: GlobalEntity, b: GlobalEntity) returns (calls: seq<Call>)
    requires a != b
    ensures Run(calls).Fine? && Run(calls).world == BothDelegated(a, b)
  {
    hide Run;
    EmptyRun();
    var w1 := RunNext([], EMPTY, InsertRecord(a, EntityOwner.Server));
    var c1: seq<Call> := [] + [InsertRecord(a, EntityOwner.Server)];
    var w2 := RunNext(c1, w1, EnableDelegation(a));
    var c2 := c1 + [EnableDelegation(a)];
    var w3 := RunNext(c2, w2, InsertRecord(b, EntityOwner.Server));
    var c3 := c2 + [InsertRecord(b, EntityOwner.Server)];
    var w4 := RunNext(c3, w3, EnableDelegation(b));
    calls := c3 + [EnableDelegation(b)];
  }

  /**
   A run in which a client takes two entities and gives one back: then nothing is listed for it, and when it leaves
   the other entity is still kept from everyone else.
   */
  lemma LeavingKeepsTheOther(a: GlobalEntity, b: GlobalEntity, u: UserKey, v: UserKey) returns (calls: seq<Call>)
    requires a != b
    ensures Run(calls).Fine?
    ensures var w := Run(calls).world;
            var left := Left(w, u, []);
            && u !in w.auth.listed && HeldBy(left, u, b)
            && Apply(left, RequestAuthority(b, ClientHolds(v))) == Fine(left, NotAvailable)
  {
    hide Run;
    var c0 := DelegateBoth(a, b);
    var w0 := BothDelegated(a, b);
    ReleasingOneUnlistsTheOther(a, b, u);
    var w1 := RunNext(c0, w0, RequestAuthority(a, ClientHolds(u)));
    var c1 := c0 + [RequestAuthority(a, ClientHolds(u))];
    var w2 := RunNext(c1, w1, RequestAuthority(b, ClientHolds(u)));
    var c2 := c1 + [RequestAuthority(b, ClientHolds(u))];
    var w3 := RunNext(c2, w2, ReleaseAuthority(a, ClientHolds(u)));
    calls := c2 + [ReleaseAuthority(a, ClientHolds(u))];
  }

  lemma EmptyRun()
    ensures Run([]) == Fine(EMPTY, Ok(Nobody))
  {
  }

  // ----- the objects -----

  class HostAuthHandler {
    var channels: map<GlobalEntity, Status>

    constructor ()
      ensures channels == map[]
    {
      channels := map[];
    }

    method RegisterEntity(g: GlobalEntity) returns (ok: bool)
      modifies this
      ensures ok == (g !in old(channels))
      ensures channels == if ok then old(channels)[g := Available] else old(channels)
    {
      if g in channels {
        return false;
      }
      channels := channels[g := Available];
      return true;
    }

    method DeregisterEntity(g: GlobalEntity)
      modifies this
      ensures channels == old(channels) - {g}
    {
      channels := channels - {g};
    }

    method SetAuthStatus(g: GlobalEntity, s: Status) returns (ok: bool)
      modifies this
      ensures ok == (g in old(channels))
      ensures channels == if ok then old(channels)[g := s] else old(channels)
    {
      if g !in channels {
        return false;
      }
      channels := channels[g := s];
      return true;
    }
  }

  class ServerAuthHandler {
    const host: HostAuthHandler
    var entityAuth: map<GlobalEntity, AuthOwner>
    var userToEntity: map<UserKey, set<GlobalEntity>>

    ghost function State(): Handler
      reads this, host
    {
      Handler(host.channels, entityAuth, userToEntity)
    }

    constructor ()
      ensures fresh(host) && State() == Handler(map[], map[], map[])
    {
      host := new HostAuthHandler();
      entityAuth, userToEntity := map[], map[];
    }

    method RegisterEntity(g: GlobalEntity) returns (reply: Reply)
      modifies this, host
      ensures (State(), reply) == Registered(old(State()), g)
    {
      var ok := host.RegisterEntity(g);
      if !ok {
        return AlreadyRegisteredPanic;
      }
      entityAuth := entityAuth[g := Nobody];
      return Ok(Nobody);
    }

    method DeregisterEntity(g: GlobalEntity)
      modifies this, host
      ensures State() == Deregistered(old(State()), g)
    {
      host.DeregisterEntity(g);
      entityAuth := entityAuth - {g};
    }

    method ClientRequestAuthority(g: GlobalEntity, requester: AuthOwner) returns (reply: Reply)
      modifies this, host
      ensures (State(), reply) == Request(old(State()), g, requester)
    {
      if g !in entityAuth {
        return NotDelegated;
      }
      if entityAuth[g] != Nobody {
        return NotAvailable;
      }
      match requester {
        case ServerHolds =>
          entityAuth := entityAuth[g := ServerHolds];
          var ok := host.SetAuthStatus(g, Granted);
          if !ok { return StatusMissingPanic; }
        case ClientHolds(u) =>
          entityAuth := entityAuth[g := ClientHolds(u)];
          userToEntity := userToEntity[u := (if u in userToEntity then userToEntity[u] else {}) + {g}];
          var ok := host.SetAuthStatus(g, Denied);
          if !ok { return StatusMissingPanic; }
        case Nobody =>
      }
      return Ok(Nobody);
    }

    method ReleaseAllAuthority(g: GlobalEntity, former: AuthOwner) returns (reply: Reply)
      modifies this, host
      ensures (State(), reply) == ReleasedAll(old(State()), g, former)
    {
      if former == Nobody {
        return Ok(Nobody);
      }
      if former.ClientHolds? {
        var removeUser := false;
        if former.user in userToEntity {
          userToEntity := userToEntity[former.user := userToEntity[former.user] - {g}];
          removeUser := true;
        }
        if removeUser {
          userToEntity := userToEntity - {former.user};
        }
        assert userToEntity == old(userToEntity) - {former.user};
      }
      var ok := host.SetAuthStatus(g, Available);
      return if ok then Ok(Nobody) else StatusMissingPanic;
    }

    method ClientReleaseAuthority(g: GlobalEntity, releaser: AuthOwner) returns (reply: Reply)
      modifies this, host
      ensures (State(), reply) == Release(old(State()), g, releaser)
    {
      if g !in entityAuth {
        return NotDelegated;
      }
      var former := entityAuth[g];
      if former == releaser || releaser == ServerHolds {
        entityAuth := entityAuth[g := Nobody];
        reply := ReleaseAllAuthority(g, former);
        return if reply.Ok? then Ok(former) else reply;
      }
      return NotHolder;
    }

    method ServerGiveAuthorityToClient(g: GlobalEntity, target: UserKey) returns (reply: Reply)
      modifies this, host
      ensures (State(), reply) == Give(old(State()), g, target)
    {
      if g !in entityAuth {
        return NotDelegated;
      }
      var former := entityAuth[g];
      if former == ClientHolds(target) {
        return Ok(former);
      }
      entityAuth := entityAuth[g := ClientHolds(target)];
      reply := ReleaseAllAuthority(g, former);
      if !reply.Ok? {
        return;
      }
      userToEntity := userToEntity[target := (if target in userToEntity then userToEntity[target] else {}) + {g}];
      var ok := host.SetAuthStatus(g, Denied);
      return if ok then Ok(former) else StatusMissingPanic;
    }

    method ServerTakeAuthority(g: GlobalEntity) returns (reply: Reply)
      modifies this, host
      ensures (State(), reply) == Take(old(State()), g)
    {
      if g !in entityAuth {
        return NotDelegated;
      }
      var former := entityAuth[g];
      if former == ServerHolds {
        return Ok(former);
      }
      entityAuth := entityAuth[g := ServerHolds];
      reply := ReleaseAllAuthority(g, former);
      if !reply.Ok? {
        return;
      }
      var ok := host.SetAuthStatus(g, Granted);
      return if ok then Ok(former) else StatusMissingPanic;
    }
  }

  class GlobalWorldManager {
    const authHandler: ServerAuthHandler
    var records: map<GlobalEntity, Record>

    ghost function State(): World
      reads this, authHandler, authHandler.host
    {
      World(records, authHandler.State())
    }

    /** Where the specification goes on, so does the object; a panic leaves nothing to say. */
    ghost predicate Follows(o: Outcome, panicked: bool, reply: Reply)
      reads this, authHandler, authHandler.host
    {
      panicked == !o.Fine? && (o.Fine? ==> State() == o.world && reply == o.reply)
    }

    constructor ()
      ensures fresh(authHandler) && fresh(authHandler.host) && State() == EMPTY
    {
      authHandler := new ServerAuthHandler();
      records := map[];
    }

    method InsertEntityRecord(g: GlobalEntity, owner: EntityOwner) returns (panicked: bool)
      modifies this
      ensures Follows(Apply(old(State()), InsertRecord(g, owner)), panicked, Ok(Nobody))
    {
      if g in records || owner.ClientPublic? || owner.Local? {
        return true;
      }
      records := records[g := Record(owner, if owner.Server? then Public else Private)];
      return false;
    }

    method RemoveEntityRecord(g: GlobalEntity) returns (panicked: bool)
      modifies this
      ensures Follows(Apply(old(State()), RemoveRecord(g)), panicked, Ok(Nobody))
    {
      if g !in records {
        return true;
      }
      records := records - {g};
      return false;
    }

    method EntityPublish(g: GlobalEntity) returns (panicked: bool, reply: Reply)
      modifies this
      ensures Follows(Apply(old(State()), Publish(g)), panicked, reply)
    {
      if g !in records {
        return true, NotAvailable;
      }
      match records[g].owner
      case Local => return true, NotAvailable;
      case Server => return false, NotAvailable;
      case ClientWaiting(_) => return true, NotAvailable;
      case Client(u) =>
        records := records[g := Record(ClientPublic(u), Public)];
        return false, Ok(Nobody);
      case ClientPublic(u) =>
        records := records[g := Record(ClientPublic(u), Public)];
        return false, Ok(Nobody);
    }

    method EntityUnpublish(g: GlobalEntity) returns (panicked: bool)
      modifies this
      ensures Follows(Apply(old(State()), Unpublish(g)), panicked, Ok(Nobody))
    {
      if g !in records || !records[g].owner.ClientPublic? {
        return true;
      }
      records := records[g := Record(Client(records[g].owner.publisher), Private)];
      return false;
    }

    method EntityEnableDelegation(g: GlobalEntity) returns (panicked: bool)
      modifies this, authHandler, authHandler.host
      ensures Follows(Apply(old(State()), EnableDelegation(g)), panicked, Ok(Nobody))
    {
      if g !in records || records[g].publicity != Public {
        return true;
      }
      records := records[g := records[g].(publicity := Delegated)];
      var reply := authHandler.RegisterEntity(g);
      return !reply.Ok?;
    }

    method MigrateEntityToServer(g: GlobalEntity) returns (panicked: bool)
      modifies this
      ensures Follows(Apply(old(State()), Migrate(g)), panicked, Ok(Nobody))
    {
      if g !in records || !(records[g].owner.Client? || records[g].owner.ClientPublic? || records[g].owner.ClientWaiting?) {
        return true;
      }
      records := records[g := records[g].(owner := Server)];
      return false;
    }

    method EntityDisableDelegation(g: GlobalEntity) returns (panicked: bool)
      modifies this, authHandler, authHandler.host
      ensures Follows(Apply(old(State()), DisableDelegation(g)), panicked, Ok(Nobody))
    {
      if g !in records || records[g].publicity != Delegated {
        return true;
      }
      records := records[g := records[g].(publicity := Public)];
      authHandler.DeregisterEntity(g);
      return false;
    }

    method EntityIsDelegated(g: GlobalEntity) returns (delegated: bool)
      ensures delegated == IsDelegated(State(), g)
    {
      delegated := g in records && records[g].publicity == Delegated;
    }

    method RequestAuthority(g: GlobalEntity, who: AuthOwner) returns (panicked: bool, reply: Reply)
      modifies authHandler, authHandler.host
      ensures Follows(Apply(old(State()), Call.RequestAuthority(g, who)), panicked, reply)
    {
      var delegated := EntityIsDelegated(g);
      if !delegated {
        return false, NotDelegated;
      }
      reply := authHandler.ClientRequestAuthority(g, who);
      panicked := reply.StatusMissingPanic? || reply.AlreadyRegisteredPanic?;
    }

    method ReleaseAuthority(g: GlobalEntity, who: AuthOwner) returns (panicked: bool, reply: Reply)
      modifies authHandler, authHandler.host
      ensures Follows(Apply(old(State()), Call.ReleaseAuthority(g, who)), panicked, reply)
    {
      var delegated := EntityIsDelegated(g);
      if !delegated {
        return false, NotDelegated;
      }
      reply := authHandler.ClientReleaseAuthority(g, who);
      panicked := reply.StatusMissingPanic? || reply.AlreadyRegisteredPanic?;
    }

    method GiveAuthority(g: GlobalEntity, target: UserKey) returns (panicked: bool, reply: Reply)
      modifies authHandler, authHandler.host
      ensures Follows(Apply(old(State()), Call.GiveAuthority(g, target)), panicked, reply)
    {
      var delegated := EntityIsDelegated(g);
      if !delegated {
        return false, NotDelegated;
      }
      reply := authHandler.ServerGiveAuthorityToClient(g, target);
      panicked := reply.StatusMissingPanic? || reply.AlreadyRegisteredPanic?;
    }

    method TakeAuthority(g: GlobalEntity) returns (panicked: bool, reply: Reply)
      modifies authHandler, authHandler.host
      ensures Follows(Apply(old(State()), Call.TakeAuthority(g)), panicked, reply)
    {
      var delegated := EntityIsDelegated(g);
      if !delegated {
        return false, NotDelegated;
      }
      reply := authHandler.ServerTakeAuthority(g);
      panicked := reply.StatusMissingPanic? || reply.AlreadyRegisteredPanic?;
    }
  }
}

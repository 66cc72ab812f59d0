/**
 One client session against the whole server, over a network that may lose,
 duplicate, delay and reorder: packets once sent stay in flight for ever and any of
 them may be delivered at any time, any number of times.

 Other clients, the application and the timeouts act on the server as they like,
 except that they do not remove this session's user and do not know its token.
 What makes the server panic ends it: from then on it takes no step.
 */
module HandshakeProtocol {
  import opened Options
  import C = ClientHandshake
  import S = ServerHandshake
  import M = MainServers
  import P = UserPhases

  /** The session: its address, its user, the token issued to it and the protocol both sides run. */
  datatype Session = Session(address: S.Address, user: S.UserKey, token: S.Token, protocol: int, pings: nat)

  /**
   The world server's part (`server/src/server/world_server.rs`): users registered by the
   main server, those of them still to connect, and the open connections.
   */
  datatype World = World(
    users: set<S.UserKey>,
    disconnected: map<S.Address, S.UserKey>,
    live: map<S.Address, S.UserKey>)

  datatype System = System(
    client: C.State,
    joins: nat,                       // how often the client has reported a connection
    alive: bool,                      // the server has not panicked
    main: S.Main,
    world: World,
    toServer: set<C.ToServer>,        // in flight from the client
    toClient: set<C.FromServer>,      // in flight to it
    pings: PingStore,
    pingsOut: set<nat>,               // pings in flight, by their index
    pongsBack: set<nat>)              // the answers to them

  /** The pings still to be answered, oldest first; only so many are remembered. */
  datatype PingStore = PingStore(next: nat, sent: seq<nat>)

  const PING_HISTORY: nat := 32

  function Pinged(s: PingStore): PingStore {
    var sent := s.sent + [s.next];
    PingStore(s.next + 1, if |sent| > PING_HISTORY then sent[|sent| - PING_HISTORY..] else sent)
  }

  function Answered(s: PingStore, index: nat): PingStore {
    s.(sent := Without(s.sent, index))
  }

  function Without(q: seq<nat>, index: nat): (r: seq<nat>)
    ensures forall i :: i in r <==> i in q && i != index
  {
    if q == [] then [] else (if q[0] == index then [] else [q[0]]) + Without(q[1..], index)
  }

  /**
   Packets may arrive any number of times once sent. A stray pong answers no ping of the client: anyone may have
   sent it. A garbled ping carries a good header and no readable index.
   */
  datatype Event =
    | ClientSends
    | ClientReceives(packet: C.FromServer)
    | ClientReceivesPong(index: nat, value: int)
    | ServerReceives(request: C.ToServer)
    | ServerReceivesPing(index: nat)
    | StrayPong(pong: C.Pong)
    | Foreign(event: M.ServerEvent)
    | GarbledPing(address: S.Address)
    | WorldDrops(user: S.UserKey)

  /** What the client, the server and the network between them do. */
  predicate Regular(e: Event) {
    e.ClientSends? || e.ClientReceives? || e.ClientReceivesPong? || e.ServerReceives? || e.ServerReceivesPing?
  }

  // ----- the server as a whole -----

  function AsPacket(p: C.ToServer): S.Packet {
    match p
    case IdentifyRequest(protocol, token) => S.Handshake(S.ClientIdentifyRequest(protocol, Some(token)))
    case Ping => S.WorldData
    case ConnectRequest => S.Handshake(S.ClientConnectRequest)
  }

  function AsReply(r: S.Reply): C.FromServer {
    match r
    case IdentifyResponse => C.IdentifyResponse
    case RejectResponse(reason) => C.RejectResponse(if reason.Auth? then 1 else 0)
  }

  /** `receive_user`, for a connection the main server reports. */
  function RegisteredOne(w: World, m: S.Main, e: S.MainEvent): World {
    if e.ConnectEvent? && e.user in m.users && m.users[e.user].dataAddr.Some?
    then w.(users := w.users + {e.user}, disconnected := w.disconnected[m.users[e.user].dataAddr.value := e.user])
    else w
  }

  function Registered(w: World, m: S.Main, emitted: seq<S.MainEvent>): World
    decreases |emitted|
  {
    if emitted == [] then w else Registered(RegisteredOne(w, m, emitted[0]), m, emitted[1..])
  }

  /** A forwarded connect request: the connection is opened if need be; the flag says whether it is answered. */
  function ConnectRequested(w: World, address: S.Address): (World, bool) {
    if address in w.live then (w, true)
    else if address !in w.disconnected then (w, false)
    else
      var user := w.disconnected[address];
      var taken := w.(disconnected := w.disconnected - {address});
      (if user in w.users then taken.(live := taken.live[address := user]) else taken, true)
  }

  function WorldHandles(w: World, m: S.Main, emitted: seq<S.MainEvent>, connectRequest: bool): (World, bool) {
    var w1 := Registered(w, m, emitted);
    if connectRequest && |emitted| == 1 && emitted[0].WorldPacketEvent? then ConnectRequested(w1, emitted[0].address)
    else (w1, false)
  }

  predicate IsConnectRequest(e: M.ServerEvent) {
    e.PacketArrives? && e.packet == S.Handshake(S.ClientConnectRequest)
  }

  /** One event of the server, with everything it triggers; `answered` is a connect response to its sender. */
  function ServerStep(s: Session, m: S.Main, w: World, requireAuth: bool, e: M.ServerEvent): Option<(S.Main, World, seq<(S.Address, S.Reply)>, bool)> {
    match M.Next(m, requireAuth, s.protocol, e)
    case Panicked(_) => None
    case Running(m', emitted, sent) =>
      var (w', answered) := WorldHandles(w, m', emitted, IsConnectRequest(e));
      Some((m', w', sent, answered))
  }

  // ----- steps -----

  /** What the others may do: anything but removing this user, using its address or presenting its token. */
  ghost predicate Others(s: Session, requireAuth: bool, e: M.ServerEvent) {
    match e
    case AuthArrives(r) => !requireAuth ==> r.token != s.token
    case AcceptCall(_, token) => token != s.token
    case RejectCall(user) => user != s.user
    case DisconnectCall(user) => user != s.user
    case TimeoutCheck(aged) => s.user !in aged
    case PacketArrives(address, packet) =>
      && address != s.address
      && (packet.Handshake? && packet.header.ClientIdentifyRequest? ==> packet.header.token != Some(s.token))
    case ResetCall => false
  }

  function Replies(s: Session, sent: seq<(S.Address, S.Reply)>, answered: bool): set<C.FromServer> {
    (set i | 0 <= i < |sent| && sent[i].0 == s.address :: AsReply(sent[i].1))
    + (if answered then {C.ConnectResponse} else {})
  }

  ghost function Served(s: Session, requireAuth: bool, x: System, e: M.ServerEvent): System {
    match ServerStep(s, x.main, x.world, requireAuth, e)
    case None => x.(alive := false)
    case Some((m, w, sent, answered)) =>
      var mine := e.PacketArrives? && e.address == s.address;
      x.(main := m, world := w, toClient := x.toClient + Replies(s, sent, answered && mine))
  }

  ghost function Hears(s: Session, x: System, packet: C.FromServer): System {
    var (client, result) := C.Receives(x.client, s.pings, packet);
    x.(client := client, joins := if result.Joined? then x.joins + 1 else x.joins)
  }

  /** A ping is answered by the world server, to which the main server routes it only for a known address. */
  predicate Routes(s: Session, requireAuth: bool, m: S.Main, address: S.Address) {
    var o := M.Next(m, requireAuth, s.protocol, M.PacketArrives(address, S.WorldData));
    o.Running? && |o.emitted| == 1 && o.emitted[0].WorldPacketEvent?
  }

  ghost function ServedPing(s: Session, requireAuth: bool, x: System, index: nat): System {
    var y := Served(s, requireAuth, x, M.PacketArrives(s.address, S.WorldData));
    if Routes(s, requireAuth, x.main, s.address) then y.(pongsBack := y.pongsBack + {index}) else y
  }

  ghost function Step(s: Session, requireAuth: bool, x: System, e: Event): System {
    match e
    case ClientSends =>
      var p := C.Sends(x.client, s.protocol, Some(s.token));
      if p.None? then x
      else if p.value.Ping? then x.(pings := Pinged(x.pings), pingsOut := x.pingsOut + {x.pings.next})
      else x.(toServer := x.toServer + {p.value})
    case ClientReceives(packet) =>
      if packet in x.toClient || packet.Ignored? then Hears(s, x, packet) else x
    case ClientReceivesPong(index, value) =>
      if index in x.pongsBack && index in x.pings.sent && x.client.TimeSync?
      then Hears(s, x.(pings := Answered(x.pings, index)), C.PongPacket(C.Sample(value)))
      else x
    case StrayPong(pong) => Hears(s, x, C.PongPacket(pong))
    case ServerReceives(packet) =>
      if x.alive && packet in x.toServer then Served(s, requireAuth, x, M.PacketArrives(s.address, AsPacket(packet))) else x
    case ServerReceivesPing(index) =>
      if x.alive && index in x.pingsOut then ServedPing(s, requireAuth, x, index) else x
    case Foreign(event) =>
      if x.alive && Others(s, requireAuth, event) then Served(s, requireAuth, x, event) else x
    case GarbledPing(address) =>
      if x.alive && address != s.address && Routes(s, requireAuth, x.main, address) then x.(alive := false) else x
    case WorldDrops(user) =>
      if !x.alive || user == s.user then x
      else x.(world := x.world.(users := x.world.users - {user},
                                live := map a | a in x.world.live && x.world.live[a] != user :: x.world.live[a]))
  }

  ghost predicate SoleHolder(s: Session, m: S.Main) {
    forall u :: u in m.handshakes.tokens && m.handshakes.tokens[u] == s.token ==> u == s.user
  }

  /** The session starts when its user has been accepted: nothing in flight, its address unknown. */
  ghost predicate Start(s: Session, x: System) {
    && x.client == C.AwaitingIdentifyResponse && x.joins == 0 && x.alive
    && x.toServer == {} && x.toClient == {} && x.pings == PingStore(0, []) && x.pingsOut == {} && x.pongsBack == {}
    && M.Inv(x.main)
    && s.token in x.main.handshakes.unidentified && x.main.handshakes.unidentified[s.token] == s.user
    && SoleHolder(s, x.main)
    && s.address !in x.main.connections && s.address !in x.world.live && s.address !in x.world.disconnected
  }

  ghost function Run(s: Session, requireAuth: bool, start: System, events: seq<Event>): System {
    if events == [] then start
    else Step(s, requireAuth, Run(s, requireAuth, start, events[..|events| - 1]), events[|events| - 1])
  }

  // ----- the invariant -----

  /** Server side: the session's user, token and address are bound to one another and to nothing else. */
  ghost predicate Bound(s: Session, m: S.Main) {
    && M.Inv(m)
    && s.user in m.handshakes.tokens && m.handshakes.tokens[s.user] == s.token
    && (s.token in m.handshakes.unidentified ==> m.handshakes.unidentified[s.token] == s.user)
    && (s.address in m.connections ==> m.connections[s.address] == s.user)
    && SoleHolder(s, m)
    && (if s.address in m.connections then m.users[s.user].dataAddr == Some(s.address)
        else m.users[s.user].dataAddr == None && s.token in m.handshakes.unidentified)
  }

  ghost predicate Tracked(s: Session, m: S.Main, w: World) {
    && (s.address in m.connections ==> s.user in w.users && (s.address in w.live || s.address in w.disconnected))
    && (s.address in w.live ==> w.live[s.address] == s.user)
    && (s.address in w.disconnected ==> w.disconnected[s.address] == s.user)
    && (s.address in w.live || s.address in w.disconnected ==> s.address in m.connections)
  }

  /** Every packet in flight is evidence of how far the two sides have come. */
  ghost predicate Evidence(s: Session, x: System) {
    && (forall p :: p in x.toServer && p.IdentifyRequest? ==> p.token == s.token && p.protocol == s.protocol)
    && (forall reason :: C.RejectResponse(reason) !in x.toClient)
    && (C.IdentifyResponse in x.toClient ==> s.address in x.main.connections)
    && (C.ConnectRequest in x.toServer ==> C.Index(x.client) >= 2)
    && (C.ConnectResponse in x.toClient ==> C.Index(x.client) >= 2 && s.address in x.world.live)
    && (C.Index(x.client) >= 1 ==> s.address in x.main.connections)
    && (C.Index(x.client) == 3 ==> s.address in x.world.live)
    && x.joins == (if C.Index(x.client) == 3 then 1 else 0)
  }

  ghost predicate Inv(s: Session, x: System) {
    Bound(s, x.main) && Tracked(s, x.main, x.world) && Evidence(s, x)
  }

  // ----- preservation -----

  lemma PacketKeepsBound(s: Session, m: S.Main, address: S.Address, packet: S.Packet)
    requires Bound(s, m)
    requires packet.Handshake? && packet.header.ClientIdentifyRequest? && packet.header.token.Some? ==>
               (address == s.address <==> packet.header.token.value == s.token)
    ensures var o := S.ReceivePacket(m, s.protocol, address, packet);
            && o.Running? && Bound(s, o.main)
            && (forall a :: a in m.connections ==> a in o.main.connections)
            && (address != s.address && s.address in o.main.connections ==> s.address in m.connections)
  {
    M.PacketKeeps(m, s.protocol, address, packet);
    if packet.Handshake? && packet.header.ClientIdentifyRequest? && packet.header.token.Some? {
      var token := packet.header.token.value;
      if token in m.handshakes.unidentified {
        assert m.handshakes.tokens[m.handshakes.unidentified[token]] == token;
      }
    }
  }

  lemma ForeignKeepsBound(s: Session, m: S.Main, requireAuth: bool, e: M.ServerEvent)
    requires Bound(s, m) && Others(s, requireAuth, e)
    ensures var o := M.Next(m, requireAuth, s.protocol, e);
            o.Running? ==> Bound(s, o.main) && (s.address in o.main.connections <==> s.address in m.connections)
  {
    M.NextKeeps(m, requireAuth, s.protocol, e);
    if e.PacketArrives? { PacketKeepsBound(s, m, e.address, e.packet); }
  }

  // What the world server makes of one event.

  lemma RegisterKeepsTracked(s: Session, m: S.Main, m': S.Main, w: World, e: S.MainEvent)
    requires Tracked(s, m, w) && Bound(s, m')
    requires s.address in m.connections ==> s.address in m'.connections
    requires s.address !in m.connections && s.address in m'.connections ==> e == S.ConnectEvent(s.user)
    ensures Tracked(s, m', RegisteredOne(w, m', e))
    ensures s.address in w.live ==> s.address in RegisteredOne(w, m', e).live
  {
    assert M.ConnectionsAgree(m');
  }

  lemma RequestKeepsTracked(s: Session, m: S.Main, w: World, address: S.Address)
    requires Tracked(s, m, w)
    ensures var (w', answered) := ConnectRequested(w, address);
            && Tracked(s, m, w')
            && (s.address in w.live ==> s.address in w'.live)
            && (answered && address == s.address ==> s.address in w'.live)
  {
  }

  lemma WorldKeepsTracked(s: Session, m: S.Main, m': S.Main, w: World, emitted: seq<S.MainEvent>, request: bool)
    requires Tracked(s, m, w) && Bound(s, m') && |emitted| <= 1
    requires s.address in m.connections ==> s.address in m'.connections
    requires s.address !in m.connections && s.address in m'.connections ==> emitted == [S.ConnectEvent(s.user)]
    ensures var (w', answered) := WorldHandles(w, m', emitted, request);
            && Tracked(s, m', w')
            && (s.address in w.live ==> s.address in w'.live)
            && (answered ==> request && |emitted| == 1 && emitted[0].WorldPacketEvent?
                             && (emitted[0].address == s.address ==> s.address in w'.live))
  {
    hide Bound, Tracked;
    if emitted == [] {
      TrackedSame(s, m, m', w);
    } else {
      assert emitted[1..] == [];
      assert Registered(w, m', emitted) == RegisteredOne(w, m', emitted[0]);
      RegisterKeepsTracked(s, m, m', w, emitted[0]);
      if emitted[0].WorldPacketEvent? {
        RequestKeepsTracked(s, m', RegisteredOne(w, m', emitted[0]), emitted[0].address);
      }
    }
  }

  lemma TrackedSame(s: Session, m: S.Main, m': S.Main, w: World)
    requires Tracked(s, m, w) && (s.address in m.connections <==> s.address in m'.connections)
    ensures Tracked(s, m', w)
  {
  }

  lemma OwnPacketFacts(s: Session, m: S.Main, packet: C.ToServer)
    requires Bound(s, m) && (packet.IdentifyRequest? ==> packet.token == s.token && packet.protocol == s.protocol)
    ensures var o := S.ReceivePacket(m, s.protocol, s.address, AsPacket(packet));
            && o.Running? && |o.emitted| <= 1
            && (s.address !in m.connections && s.address in o.main.connections ==> o.emitted == [S.ConnectEvent(s.user)])
            && (C.IdentifyResponse in Replies(s, o.sent, false) ==> s.address in o.main.connections)
            && (o.emitted != [] && o.emitted[0].WorldPacketEvent? ==> o.emitted[0].address == s.address)
            && C.ConnectResponse !in Replies(s, o.sent, false)
            && (forall reason :: C.RejectResponse(reason) !in Replies(s, o.sent, false))
  {
    PacketKeepsBound(s, m, s.address, AsPacket(packet));
  }

  lemma ForeignFacts(s: Session, m: S.Main, requireAuth: bool, e: M.ServerEvent)
    requires Bound(s, m) && Others(s, requireAuth, e)
    ensures var o := M.Next(m, requireAuth, s.protocol, e);
            o.Running? ==> |o.emitted| <= 1 && Replies(s, o.sent, false) == {}
  {
    M.AnnouncesFresh(m, requireAuth, s.protocol, e);
  }

  /** Serving one of the client's own packets: the invariant, and a connect response only for a connect request. */
  lemma OwnServed(s: Session, requireAuth: bool, x: System, packet: C.ToServer)
    requires Inv(s, x) && (packet in x.toServer || packet == C.Ping)
    ensures Inv(s, Served(s, requireAuth, x, M.PacketArrives(s.address, AsPacket(packet))))
  {
    hide S.ReceivePacket, Bound, Tracked, WorldHandles;
    var e := M.PacketArrives(s.address, AsPacket(packet));
    var o := S.ReceivePacket(x.main, s.protocol, s.address, AsPacket(packet));
    OwnPacketFacts(s, x.main, packet);
    PacketKeepsBound(s, x.main, s.address, AsPacket(packet));
    WorldKeepsTracked(s, x.main, o.main, x.world, o.emitted, IsConnectRequest(e));
    assert Replies(s, o.sent, true) == Replies(s, o.sent, false) + {C.ConnectResponse};
    assert IsConnectRequest(e) ==> packet == C.ConnectRequest;
  }

  lemma ForeignServed(s: Session, requireAuth: bool, x: System, e: M.ServerEvent)
    requires Inv(s, x) && Others(s, requireAuth, e)
    ensures Inv(s, Served(s, requireAuth, x, e))
  {
    var o := M.Next(x.main, requireAuth, s.protocol, e);
    if o.Running? {
      ForeignFacts(s, x.main, requireAuth, e);
      ForeignKeepsBound(s, x.main, requireAuth, e);
      WorldKeepsTracked(s, x.main, o.main, x.world, o.emitted, IsConnectRequest(e));
    }
  }

  lemma HearsKeeps(s: Session, x: System, packet: C.FromServer)
    requires Inv(s, x) && (packet in x.toClient || packet.Ignored? || packet.PongPacket?)
    ensures var y := Hears(s, x, packet);
            && Inv(s, y) && C.Index(x.client) <= C.Index(y.client)
            && (C.Index(y.client) == 3 ==> C.Index(x.client) >= 2)
  {
    hide Bound, Tracked;
  }

  lemma SendsKeeps(s: Session, requireAuth: bool, x: System)
    requires Inv(s, x)
    ensures Inv(s, Step(s, requireAuth, x, ClientSends))
  {
    hide Bound, Tracked;
  }

  lemma DropKeeps(s: Session, requireAuth: bool, x: System, user: S.UserKey)
    requires Inv(s, x)
    ensures Inv(s, Step(s, requireAuth, x, WorldDrops(user)))
  {
    hide Bound;
  }

  lemma PingServed(s: Session, requireAuth: bool, x: System, index: nat)
    requires Inv(s, x)
    ensures Inv(s, ServedPing(s, requireAuth, x, index)) && ServedPing(s, requireAuth, x, index).client == x.client
  {
    OwnServed(s, requireAuth, x, C.Ping);
    hide Bound, Tracked, ServerStep;
  }

  lemma StepKeeps(s: Session, requireAuth: bool, x: System, e: Event)
    requires Inv(s, x)
    ensures Inv(s, Step(s, requireAuth, x, e))
    ensures C.Index(x.client) <= C.Index(Step(s, requireAuth, x, e).client)
    ensures C.Index(Step(s, requireAuth, x, e).client) == 3 ==> C.Index(x.client) >= 2
  {
    hide Inv, ServerStep, ServedPing, Routes;
    match e
    case ClientSends => SendsKeeps(s, requireAuth, x);
    case ClientReceives(packet) =>
      if packet in x.toClient || packet.Ignored? { HearsKeeps(s, x, packet); }
    case ClientReceivesPong(index, value) =>
      AsideKeeps(s, x, Answered(x.pings, index), x.alive);
      HearsKeeps(s, x.(pings := Answered(x.pings, index)), C.PongPacket(C.Sample(value)));
    case StrayPong(pong) => HearsKeeps(s, x, C.PongPacket(pong));
    case ServerReceives(packet) =>
      if packet in x.toServer { OwnServed(s, requireAuth, x, packet); }
    case ServerReceivesPing(index) => PingServed(s, requireAuth, x, index);
    case Foreign(event) =>
      if Others(s, requireAuth, event) { ForeignServed(s, requireAuth, x, event); }
    case GarbledPing(_) => AsideKeeps(s, x, x.pings, false);
    case WorldDrops(user) => DropKeeps(s, requireAuth, x, user);
  }

  lemma AsideKeeps(s: Session, x: System, pings: PingStore, alive: bool)
    requires Inv(s, x)
    ensures Inv(s, x.(pings := pings, alive := alive))
  {
  }

  lemma {:induction false} RunKeeps(s: Session, requireAuth: bool, start: System, events: seq<Event>)
    requires Start(s, start)
    ensures Inv(s, Run(s, requireAuth, start, events))
  {
    hide Step;
    if events != [] {
      RunKeeps(s, requireAuth, start, events[..|events| - 1]);
      StepKeeps(s, requireAuth, Run(s, requireAuth, start, events[..|events| - 1]), events[|events| - 1]);
    }
  }

  /**
   Every run: a connect response in flight means the client already waits for one or is
   connected; so one more event never sets the client back, connects it only from the
   waiting state, and never takes the branch that throws the handshake away.
   */
  lemma NoHandshakeIsLost(s: Session, requireAuth: bool, start: System, events: seq<Event>, e: Event)
    requires Start(s, start)
    ensures var x := Run(s, requireAuth, start, events);
            var x' := Step(s, requireAuth, x, e);
            && (C.ConnectResponse in x.toClient ==> C.Index(x.client) >= 2)
            && C.Index(x.client) <= C.Index(x'.client)
            && (C.Index(x'.client) == 3 && C.Index(x.client) != 3 ==>
                  x.client.AwaitingConnectResponse? && x'.joins == x.joins + 1)
  {
    RunKeeps(s, requireAuth, start, events);
    StepKeeps(s, requireAuth, Run(s, requireAuth, start, events), e);
  }

  /**
   Every run: a connected client has reported it exactly once, and both server layers hold
   its address as the connection of the user its token was issued to.
   */
  lemma ConnectedMeansAgreed(s: Session, requireAuth: bool, start: System, events: seq<Event>)
    requires Start(s, start)
    ensures var x := Run(s, requireAuth, start, events);
            && x.joins <= 1
            && (x.client == C.Connected ==>
                  && x.joins == 1
                  && s.address in x.main.connections && x.main.connections[s.address] == s.user
                  && s.user in x.main.handshakes.tokens && x.main.handshakes.tokens[s.user] == s.token
                  && s.address in x.world.live && x.world.live[s.address] == s.user
                  && (forall a :: a in x.main.connections && x.main.connections[a] == s.user ==> a == s.address)
                  && (forall u :: u in x.main.handshakes.tokens && x.main.handshakes.tokens[u] == s.token ==> u == s.user))
  {
    RunKeeps(s, requireAuth, start, events);
  }

  /** Every run: the server never rejects the session. */
  lemma NeverRejected(s: Session, requireAuth: bool, start: System, events: seq<Event>, reason: int)
    requires Start(s, start)
    ensures C.RejectResponse(reason) !in Run(s, requireAuth, start, events).toClient
  {
    hide Step;
    RunKeeps(s, requireAuth, start, events);
  }

  /** Every run: exactly a disconnect packet with the session's token, from the session's address, queues its disconnect. */
  lemma OnlyItsTokenDisconnects(s: Session, requireAuth: bool, start: System, events: seq<Event>, a: S.Address, packet: S.Packet)
    requires Start(s, start)
    ensures var m := Run(s, requireAuth, start, events).main;
            var o := S.ReceivePacket(m, s.protocol, a, packet);
            o.Running? && S.QueuedDisconnectEvent(s.user) in o.emitted <==>
            a == s.address && a in m.connections && packet == S.Handshake(S.Disconnect(Some(s.token)))
  {
    hide Start, Run;
    RunKeeps(s, requireAuth, start, events);
    var m := Run(s, requireAuth, start, events).main;
    P.DisconnectQueuedIff(m, s.protocol, a, packet, s.user);
    assert M.ConnectionsAgree(m);
    hide S.ReceivePacket, Tracked, Evidence;
  }

  // ----- what stops the server -----

  lemma RoutesIff(s: Session, requireAuth: bool, m: S.Main, address: S.Address)
    requires M.Inv(m)
    ensures Routes(s, requireAuth, m, address) <==> address in m.connections
  {
  }

  /** What a caller must not do, or another client not send: each event that makes a running server panic. */
  ghost predicate Fatal(s: Session, requireAuth: bool, x: System, e: Event) {
    && x.alive
    && match e
       case Foreign(event) =>
         Others(s, requireAuth, event) &&
         (match event
          case AuthArrives(_) => x.main.nextKey == S.MAX_KEY
          case AcceptCall(user, _) => user in x.main.handshakes.tokens
          case RejectCall(user) => user in x.main.handshakes.tokens
          case DisconnectCall(user) => user !in x.main.users
          case _ => false)
       case GarbledPing(address) => address != s.address && address in x.main.connections
       case _ => false
  }

  lemma DiesIff(s: Session, requireAuth: bool, x: System, e: Event)
    requires Inv(s, x)
    ensures Step(s, requireAuth, x, e).alive <==> x.alive && !Fatal(s, requireAuth, x, e)
  {
    match e
    case ServerReceives(packet) =>
      if packet in x.toServer { OwnPacketFacts(s, x.main, packet); }
      hide Bound, Tracked;
    case ServerReceivesPing(index) => OwnPacketFacts(s, x.main, C.Ping); hide Bound, Tracked, Routes;
    case Foreign(event) => M.PanicsExactlyWhen(x.main, requireAuth, s.protocol, event); hide Bound, Tracked, M.Next;
    case GarbledPing(address) => RoutesIff(s, requireAuth, x.main, address); hide Bound, Tracked, Routes;
    case _ =>
  }

  ghost predicate NothingFatal(s: Session, requireAuth: bool, start: System, events: seq<Event>) {
    forall n :: 0 <= n < |events| ==> !Fatal(s, requireAuth, Run(s, requireAuth, start, events[..n]), events[n])
  }

  lemma OneMoreEvent(s: Session, requireAuth: bool, start: System, events: seq<Event>)
    requires events != []
    ensures var n := |events| - 1;
            NothingFatal(s, requireAuth, start, events) <==>
            NothingFatal(s, requireAuth, start, events[..n])
            && !Fatal(s, requireAuth, Run(s, requireAuth, start, events[..n]), events[n])
  {
    hide Run, Fatal;
    var n := |events| - 1;
    assert forall k :: 0 <= k < n ==> events[..n][..k] == events[..k] && events[..n][k] == events[k];
  }

  /** Every run: the server is still there if and only if nothing fatal has happened. */
  lemma {:induction false} AliveIff(s: Session, requireAuth: bool, start: System, events: seq<Event>)
    requires Start(s, start)
    ensures Run(s, requireAuth, start, events).alive <==> NothingFatal(s, requireAuth, start, events)
  {
    if events != [] {
      hide Step, Fatal, Inv, Start, NothingFatal;
      var n := |events| - 1;
      AliveIff(s, requireAuth, start, events[..n]);
      OneMoreEvent(s, requireAuth, start, events);
      RunKeeps(s, requireAuth, start, events[..n]);
      DiesIff(s, requireAuth, Run(s, requireAuth, start, events[..n]), events[n]);
    }
  }

  // ----- while it lasts the handshake can be completed -----

  lemma {:induction false} RunConcat(s: Session, requireAuth: bool, start: System, a: seq<Event>, b: seq<Event>)
    ensures Run(s, requireAuth, start, a + b) == Run(s, requireAuth, Run(s, requireAuth, start, a), b)
    decreases |b|
  {
    if b == [] {
      assert a + b == a;
    } else {
      assert (a + b)[..|a + b| - 1] == a + b[..|b| - 1];
      RunConcat(s, requireAuth, start, a, b[..|b| - 1]);
    }
  }

  ghost function Steps3(s: Session, requireAuth: bool, x: System, a: Event, b: Event, c: Event): System {
    Step(s, requireAuth, Step(s, requireAuth, Step(s, requireAuth, x, a), b), c)
  }

  lemma RunThree(s: Session, requireAuth: bool, x: System, a: Event, b: Event, c: Event)
    ensures Run(s, requireAuth, x, [a, b, c]) == Steps3(s, requireAuth, x, a, b, c)
  {
    assert [a, b, c][..2] == [a, b] && [a, b][..1] == [a] && [a][..0] == [];
    assert Run(s, requireAuth, x, []) == x;
    assert Run(s, requireAuth, x, [a]) == Step(s, requireAuth, x, a);
    assert Run(s, requireAuth, x, [a, b]) == Step(s, requireAuth, Step(s, requireAuth, x, a), b);
  }

  lemma ThreeKeep(s: Session, requireAuth: bool, x: System, a: Event, b: Event, c: Event)
    requires Inv(s, x)
    ensures Run(s, requireAuth, x, [a, b, c]) == Steps3(s, requireAuth, x, a, b, c)
    ensures Inv(s, Steps3(s, requireAuth, x, a, b, c))
  {
    hide Inv, Step;
    RunThree(s, requireAuth, x, a, b, c);
    StepKeeps(s, requireAuth, x, a);
    StepKeeps(s, requireAuth, Step(s, requireAuth, x, a), b);
    StepKeeps(s, requireAuth, Step(s, requireAuth, Step(s, requireAuth, x, a), b), c);
  }

  lemma IdentifyCompletes(s: Session, requireAuth: bool, x: System)
    requires Inv(s, x) && x.alive && x.client.AwaitingIdentifyResponse?
    ensures Steps3(s, requireAuth, x, ClientSends,
                   ServerReceives(C.IdentifyRequest(s.protocol, s.token)),
                   ClientReceives(C.IdentifyResponse)).client == C.TimeSync([])
  {
    var request := C.IdentifyRequest(s.protocol, s.token);
    var x1 := Step(s, requireAuth, x, ClientSends);
    assert request in x1.toServer;
    var o := S.ReceivePacket(x.main, s.protocol, s.address, AsPacket(request));
    assert o.Running? && o.sent == [(s.address, S.IdentifyResponse)];
    assert C.IdentifyResponse in Replies(s, o.sent, false) by { assert AsReply(o.sent[0].1) == C.IdentifyResponse; }
    var x2 := Step(s, requireAuth, x1, ServerReceives(request));
    assert C.IdentifyResponse in x2.toClient;
  }

  lemma ConnectCompletes(s: Session, requireAuth: bool, x: System)
    requires Inv(s, x) && x.alive && x.client.AwaitingConnectResponse?
    ensures Steps3(s, requireAuth, x, ClientSends, ServerReceives(C.ConnectRequest),
                   ClientReceives(C.ConnectResponse)).client == C.Connected
  {
    var x1 := Step(s, requireAuth, x, ClientSends);
    assert C.ConnectRequest in x1.toServer;
    var e := M.PacketArrives(s.address, AsPacket(C.ConnectRequest));
    var o := M.Next(x.main, requireAuth, s.protocol, e);
    assert o == S.Running(x.main, [S.WorldPacketEvent(s.user, s.address)], []);
    assert o.emitted[1..] == [];
    assert Registered(x.world, x.main, o.emitted) == RegisteredOne(x.world, x.main, o.emitted[0]) == x.world;
    assert WorldHandles(x.world, x.main, o.emitted, true).1;
    var x2 := Step(s, requireAuth, x1, ServerReceives(C.ConnectRequest));
    assert C.ConnectResponse in x2.toClient;
  }

  /** A ping goes out, is routed and answered, and its pong yields one more sample. */
  lemma PingCompletes(s: Session, requireAuth: bool, x: System)
    requires Inv(s, x) && x.alive && x.client.TimeSync?
    ensures var i := x.pings.next;
            Steps3(s, requireAuth, x, ClientSends, ServerReceivesPing(i), ClientReceivesPong(i, 0)).client
            == C.Receives(x.client, s.pings, C.PongPacket(C.Sample(0))).0
  {
    var i := x.pings.next;
    var x1 := Step(s, requireAuth, x, ClientSends);
    assert x1.pings.sent[|x1.pings.sent| - 1] == i;
    var e := M.PacketArrives(s.address, S.WorldData);
    var o := M.Next(x.main, requireAuth, s.protocol, e);
    assert o == S.Running(x.main, [S.WorldPacketEvent(s.user, s.address)], []);
    var x2 := Step(s, requireAuth, x1, ServerReceivesPing(i));
    assert i in x2.pongsBack && x2.pings == x1.pings && x2.client == x.client;
  }

  /** The server is there, or the answer it gave is. */
  ghost predicate Open(x: System) {
    x.alive || x.client == C.Connected || C.ConnectResponse in x.toClient
  }

  lemma LastAnswer(s: Session, requireAuth: bool, x: System)
    requires Inv(s, x) && !x.alive && Open(x)
    ensures Run(s, requireAuth, x, [ClientReceives(C.ConnectResponse)]).client == C.Connected
            || x.client == C.Connected
  {
    hide Bound, Tracked;
    assert [ClientReceives(C.ConnectResponse)][..0] == [];
  }

  lemma CompletesAlive(s: Session, requireAuth: bool, x: System, a: Event, b: Event, c: Event)
    requires Inv(s, x) && x.alive && Regular(a) && Regular(b) && Regular(c)
    ensures Steps3(s, requireAuth, x, a, b, c).alive
  {
    hide Inv, Step;
    StepKeeps(s, requireAuth, x, a);
    StepKeeps(s, requireAuth, Step(s, requireAuth, x, a), b);
    DiesIff(s, requireAuth, x, a);
    DiesIff(s, requireAuth, Step(s, requireAuth, x, a), b);
    DiesIff(s, requireAuth, Step(s, requireAuth, Step(s, requireAuth, x, a), b), c);
  }

  /** From there a continuation of packets sent, carried and answered connects the client. */
  lemma {:induction false} CanFinish(s: Session, requireAuth: bool, x: System) returns (more: seq<Event>)
    requires Inv(s, x) && Open(x)
    ensures Run(s, requireAuth, x, more).client == C.Connected
    ensures forall i :: 0 <= i < |more| ==> Regular(more[i])
    decreases 3 - C.Index(x.client), if x.client.TimeSync? then s.pings - |x.client.samples| else 0
  {
    hide Inv, Step;
    var first: seq<Event> := [];
    if x.client == C.Connected { return []; }
    if !x.alive {
      LastAnswer(s, requireAuth, x);
      return [ClientReceives(C.ConnectResponse)];
    }
    match x.client {
      case AwaitingConnectResponse(_) =>
        ConnectCompletes(s, requireAuth, x);
        RunThree(s, requireAuth, x, ClientSends, ServerReceives(C.ConnectRequest), ClientReceives(C.ConnectResponse));
        return [ClientSends, ServerReceives(C.ConnectRequest), ClientReceives(C.ConnectResponse)];
      case TimeSync(samples) =>
        first := [ClientSends, ServerReceivesPing(x.pings.next), ClientReceivesPong(x.pings.next, 0)];
        PingCompletes(s, requireAuth, x);
      case AwaitingIdentifyResponse =>
        var request := C.IdentifyRequest(s.protocol, s.token);
        first := [ClientSends, ServerReceives(request), ClientReceives(C.IdentifyResponse)];
        IdentifyCompletes(s, requireAuth, x);
    }
    ThreeKeep(s, requireAuth, x, first[0], first[1], first[2]);
    CompletesAlive(s, requireAuth, x, first[0], first[1], first[2]);
    var rest := CanFinish(s, requireAuth, Run(s, requireAuth, x, first));
    RunConcat(s, requireAuth, x, first, rest);
    more := first + rest;
  }

  /** A client cut off stays cut off, whatever happens. */
  lemma ClosedStep(s: Session, requireAuth: bool, x: System, e: Event)
    requires !Open(x)
    ensures !Open(Step(s, requireAuth, x, e))
  {
  }

  lemma {:induction false} ClosedForGood(s: Session, requireAuth: bool, x: System, more: seq<Event>)
    requires !Open(x)
    ensures !Open(Run(s, requireAuth, x, more))
  {
    hide Step, Open;
    if more != [] {
      ClosedForGood(s, requireAuth, x, more[..|more| - 1]);
      ClosedStep(s, requireAuth, Run(s, requireAuth, x, more[..|more| - 1]), more[|more| - 1]);
    }
  }

  /** In every run no loss, copy or harmless outside event blocks the handshake for good. */
  lemma NeverStuck(s: Session, requireAuth: bool, start: System, events: seq<Event>) returns (more: seq<Event>)
    requires Start(s, start) && Open(Run(s, requireAuth, start, events))
    ensures Run(s, requireAuth, start, events + more).client == C.Connected
    ensures forall i :: 0 <= i < |more| ==> Regular(more[i])
  {
    RunKeeps(s, requireAuth, start, events);
    more := CanFinish(s, requireAuth, Run(s, requireAuth, start, events));
    RunConcat(s, requireAuth, start, events, more);
  }

  ghost predicate Connects(s: Session, requireAuth: bool, start: System, events: seq<Event>, more: seq<Event>) {
    Run(s, requireAuth, start, events + more).client == C.Connected
  }

  /** Every run: the client can still connect if and only if the server runs or its last answer is there. */
  lemma CompletesIff(s: Session, requireAuth: bool, start: System, events: seq<Event>)
    requires Start(s, start)
    ensures (exists more :: Connects(s, requireAuth, start, events, more)) <==> Open(Run(s, requireAuth, start, events))
  {
    hide Start, Run;
    var x := Run(s, requireAuth, start, events);
    if Open(x) {
      var more := NeverStuck(s, requireAuth, start, events);
      assert Connects(s, requireAuth, start, events, more);
    } else {
      forall more ensures !Connects(s, requireAuth, start, events, more) {
        RunConcat(s, requireAuth, start, events, more);
        ClosedForGood(s, requireAuth, x, more);
      }
    }
  }

  /** Answering for the session's user a second time, or one garbled ping of a client that has identified, is enough. */
  lemma OneEventCutsOff(s: Session, requireAuth: bool, start: System, e: Event, more: seq<Event>)
    requires Start(s, start)
    requires || (e.Foreign? && e.event.AcceptCall? && e.event.user == s.user && e.event.token != s.token)
             || (e.GarbledPing? && e.address in start.main.connections)
    ensures Run(s, requireAuth, start, [e] + more).client != C.Connected
  {
    var none: seq<Event> := [];
    RunKeeps(s, requireAuth, start, none);
    DiesIff(s, requireAuth, start, e);
    NotYet(s, requireAuth, start, e);
    assert [e][..0] == none;
    RunConcat(s, requireAuth, start, [e], more);
    ClosedForGood(s, requireAuth, Run(s, requireAuth, start, [e]), more);
  }

  lemma NotYet(s: Session, requireAuth: bool, start: System, e: Event)
    requires Start(s, start) && (e.Foreign? || e.GarbledPing?) && !Step(s, requireAuth, start, e).alive
    ensures !Open(Step(s, requireAuth, start, e))
  {
    hide M.Inv;
  }
}

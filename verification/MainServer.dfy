/**
 The main server object (`server/src/server/main_server.rs`,
 `server/src/user/main_user.rs`) and what holds of it in every run.
 */
module MainServers {
  import opened Options
  import opened ServerHandshake

  datatype AuthRequest = AuthRequest(address: Address, readable: bool, token: Token)

  function Prefixed(emitted: seq<MainEvent>, sent: seq<(Address, Reply)>, o: Outcome): Outcome {
    match o
    case Running(m, e, s) => Running(m, emitted + e, sent + s)
    case Panicked(_) => o
  }

  function ReceiveAuths(m: Main, requireAuth: bool, auths: seq<AuthRequest>): Outcome
    decreases |auths|
  {
    if auths == [] then Quiet(m)
    else
      match ReceiveAuth(m, requireAuth, auths[0].address, auths[0].readable, auths[0].token)
      case Panicked(why) => Panicked(why)
      case Running(m', e, s) => Prefixed(e, s, ReceiveAuths(m', requireAuth, auths[1..]))
  }

  function ReceivePackets(m: Main, protocol: int, packets: seq<(Address, Packet)>): Outcome
    decreases |packets|
  {
    if packets == [] then Quiet(m)
    else
      match ReceivePacket(m, protocol, packets[0].0, packets[0].1)
      case Panicked(why) => Panicked(why)
      case Running(m', e, s) => Prefixed(e, s, ReceivePackets(m', protocol, packets[1..]))
  }

  class MainServer {
    const handshakes: HandshakeManager
    const requireAuth: bool
    var users: map<UserKey, MainUser>
    var nextKey: nat
    var connections: map<Address, UserKey>
    var incoming: seq<MainEvent>
    var outbox: seq<(Address, Reply)>

    ghost function State(): Main
      reads this, handshakes
    {
      Main(handshakes.State(), users, nextKey, connections)
    }

    /** The object went where the specification says, appending to its two queues. */
    ghost predicate Follows(o: Outcome, panic: Option<Panic>, events: seq<MainEvent>, replies: seq<(Address, Reply)>)
      reads this, handshakes
    {
      match o
      case Panicked(why) => panic == Some(why)
      case Running(m, e, s) => panic == None && State() == m && incoming == events + e && outbox == replies + s
    }

    constructor (protocolId: int, requireAuth: bool)
      ensures fresh(handshakes) && handshakes.protocolId == protocolId && this.requireAuth == requireAuth
      ensures State() == Main(Handshakes(map[], map[], map[]), map[], 0, map[]) && incoming == [] && outbox == []
    {
      handshakes := new HandshakeManager(protocolId);
      this.requireAuth := requireAuth;
      users, nextKey, connections, incoming, outbox := map[], 0, map[], [], [];
    }

    method AcceptConnection(user: UserKey, token: Token) returns (panic: Option<Panic>)
      modifies this, handshakes
      ensures Follows(Accept(old(State()), user, token), panic, old(incoming), old(outbox))
    {
      if user !in users {
        incoming := incoming + [UnknownAcceptWarning];
        return None;
      }
      if users[user].authAddr.None? {
        return Some(AlreadyAnswered);
      }
      users := users[user := users[user].(authAddr := None)];
      handshakes.AuthenticateUser(token, user);
      return None;
    }

    method RejectConnection(user: UserKey) returns (panic: Option<Panic>)
      modifies this, handshakes
      ensures Follows(Reject(old(State()), user), panic, old(incoming), old(outbox))
    {
      if user in users {
        if users[user].authAddr.None? {
          return Some(AlreadyAnswered);
        }
        users := users[user := users[user].(authAddr := None)];
        assert users - {user} == old(users) - {user};
        panic := UserDelete(user);
        return;
      }
      return None;
    }

    method FinalizeConnection(user: UserKey, address: Address, ghost reply: Reply)
      modifies this
      ensures Finalize(old(State()), user, address, reply).Running?
      ensures State() == Finalize(old(State()), user, address, reply).main
      ensures incoming == old(incoming) + Finalize(old(State()), user, address, reply).emitted
      ensures outbox == old(outbox)
    {
      if user !in users {
        incoming := incoming + [UnknownUserWarning];
        return;
      }
      users := users[user := users[user].(dataAddr := Some(address))];
      connections := connections[address := user];
      incoming := incoming + [ConnectEvent(user)];
    }

    method UserDelete(user: UserKey) returns (panic: Option<Panic>)
      modifies this, handshakes
      ensures Follows(Delete(old(State()), user), panic, old(incoming), old(outbox))
    {
      if user !in users {
        return Some(NoSuchUser);
      }
      var removed := users[user];
      users := users - {user};
      if removed.dataAddr.Some? {
        connections := connections - {removed.dataAddr.value};
      }
      handshakes.DeleteUser(user, removed.dataAddr);
      return None;
    }

    method ReceiveAuthRequest(r: AuthRequest) returns (panic: Option<Panic>)
      modifies this, handshakes
      ensures Follows(ReceiveAuth(old(State()), requireAuth, r.address, r.readable, r.token), panic, old(incoming), old(outbox))
    {
      if nextKey == MAX_KEY {
        return Some(KeysExhausted);
      }
      var user := nextKey;
      nextKey := nextKey + 1;
      users := users[user := MainUser(Some(r.address), None)];
      if requireAuth {
        if r.readable {
          incoming := incoming + [AuthEvent(user)];
        }
        return None;
      }
      users := users[user := users[user].(authAddr := None)];
      handshakes.AuthenticateUser(r.token, user);
      return None;
    }

    method ReceiveSocketPacket(address: Address, packet: Packet) returns (panic: Option<Panic>)
      modifies this, handshakes
      ensures Follows(ReceivePacket(old(State()), handshakes.protocolId, address, packet), panic, old(incoming), old(outbox))
    {
      panic := None;
      match packet
      case WorldData =>
        if address in connections {
          incoming := incoming + [WorldPacketEvent(connections[address], address)];
        }
      case Handshake(header) =>
        var action := handshakes.MaintainHandshake(address, header, address in connections);
        match action
        case ForwardPacket =>
          if address in connections {
            incoming := incoming + [WorldPacketEvent(connections[address], address)];
          } else {
            incoming := incoming + [UnroutableWarning];
          }
        case DisconnectUser(user) =>
          incoming := incoming + [QueuedDisconnectEvent(user)];
        case SendPacket(reply) =>
          outbox := outbox + [(address, reply)];
        case FinalizeConnection(user, reply) =>
          FinalizeConnection(user, address, reply);
          outbox := outbox + [(address, reply)];
        case TokenMissingPanic =>
          panic := Some(TokenMissing);
        case NoAction =>
        case MalformedPacket =>
    }

    /** Everything the auth channel and the socket hold, then the pending-auth timeout. */
    method MaintainSocket(auths: seq<AuthRequest>, packets: seq<(Address, Packet)>, aged: set<UserKey>)
      returns (panic: Option<Panic>)
      modifies this, handshakes
      ensures Follows(Maintained(old(State()), requireAuth, handshakes.protocolId, auths, packets, aged),
                      panic, old(incoming), old(outbox))
    {
      hide ReceiveAuths, ReceivePackets, TimedOut, Doomed;
      panic := DrainAuths(auths);
      if panic.Some? { return; }
      panic := DrainPackets(packets);
      if panic.Some? { return; }
      DropTimedOut(aged);
    }

    method DrainAuths(auths: seq<AuthRequest>) returns (panic: Option<Panic>)
      modifies this, handshakes
      ensures Follows(ReceiveAuths(old(State()), requireAuth, auths), panic, old(incoming), old(outbox))
    {
      hide ReceiveAuth;
      ghost var whole := ReceiveAuths(State(), requireAuth, auths);
      ghost var e, s := [], [];
      assert auths[0..] == auths;
      for i := 0 to |auths|
        invariant incoming == old(incoming) + e && outbox == old(outbox) + s
        invariant whole == Prefixed(e, s, ReceiveAuths(State(), requireAuth, auths[i..]))
      {
        assert auths[i..][1..] == auths[i + 1..];
        ghost var o := ReceiveAuth(State(), requireAuth, auths[i].address, auths[i].readable, auths[i].token);
        panic := ReceiveAuthRequest(auths[i]);
        if panic.Some? { return; }
        PrefixedTwice(e, s, o.emitted, o.sent, ReceiveAuths(o.main, requireAuth, auths[i + 1..]));
        e, s := e + o.emitted, s + o.sent;
      }
      panic := None;
    }

    method DrainPackets(packets: seq<(Address, Packet)>) returns (panic: Option<Panic>)
      modifies this, handshakes
      ensures Follows(ReceivePackets(old(State()), handshakes.protocolId, packets), panic, old(incoming), old(outbox))
    {
      hide ReceivePacket;
      ghost var whole := ReceivePackets(State(), handshakes.protocolId, packets);
      ghost var e, s := [], [];
      assert packets[0..] == packets;
      for i := 0 to |packets|
        invariant incoming == old(incoming) + e && outbox == old(outbox) + s
        invariant whole == Prefixed(e, s, ReceivePackets(State(), handshakes.protocolId, packets[i..]))
      {
        assert packets[i..][1..] == packets[i + 1..];
        ghost var o := ReceivePacket(State(), handshakes.protocolId, packets[i].0, packets[i].1);
        panic := ReceiveSocketPacket(packets[i].0, packets[i].1);
        if panic.Some? { return; }
        PrefixedTwice(e, s, o.emitted, o.sent, ReceivePackets(o.main, handshakes.protocolId, packets[i + 1..]));
        e, s := e + o.emitted, s + o.sent;
      }
      panic := None;
    }

    /** The users are visited in no particular order and none is missed or deleted twice. */
    method DropTimedOut(aged: set<UserKey>)
      modifies this, handshakes
      ensures State() == TimedOut(old(State()), Doomed(old(State()), aged))
      ensures incoming == old(incoming) && outbox == old(outbox)
    {
      var doomed := set u | u in users && u in aged && users[u].dataAddr.None?;
      var left := doomed;
      ghost var start := State();
      while left != {}
        invariant left <= doomed && incoming == old(incoming) && outbox == old(outbox)
        invariant State() == TimedOut(start, doomed - left)
        decreases |left|
      {
        var user :| user in left;
        TimeoutStep(start, doomed - left, user);
        assert doomed - left + {user} == doomed - (left - {user});
        var panic := UserDelete(user);
        left := left - {user};
      }
      assert doomed - left == doomed;
    }
  }

  function Maintained(m: Main, requireAuth: bool, protocol: int, auths: seq<AuthRequest>,
                      packets: seq<(Address, Packet)>, aged: set<UserKey>): Outcome {
    match ReceiveAuths(m, requireAuth, auths)
    case Panicked(why) => Panicked(why)
    case Running(m1, e1, s1) =>
      match ReceivePackets(m1, protocol, packets)
      case Panicked(why) => Panicked(why)
      case Running(m2, e2, s2) => Running(TimedOut(m2, Doomed(m2, aged)), e1 + e2, s1 + s2)
  }

  lemma PrefixedTwice(e1: seq<MainEvent>, s1: seq<(Address, Reply)>, e2: seq<MainEvent>, s2: seq<(Address, Reply)>, o: Outcome)
    ensures Prefixed(e1, s1, Prefixed(e2, s2, o)) == Prefixed(e1 + e2, s1 + s2, o)
  {
    if o.Running? {
      assert e1 + (e2 + o.emitted) == (e1 + e2) + o.emitted;
      assert s1 + (s2 + o.sent) == (s1 + s2) + o.sent;
    }
  }

  lemma TimeoutStep(m: Main, done: set<UserKey>, user: UserKey)
    requires user in m.users && m.users[user].dataAddr.None? && user !in done
    ensures Delete(TimedOut(m, done), user) == Quiet(TimedOut(m, done + {user}))
  {
    var h := m.handshakes;
    var a := TimedOut(m, done);
    var b := TimedOut(m, done + {user});
    assert a.users - {user} == b.users;
    assert a.handshakes.tokens - {user} == b.handshakes.tokens;
    var ta := set u | u in done && u in h.tokens :: h.tokens[u];
    var tb := set u | u in done + {user} && u in h.tokens :: h.tokens[u];
    assert tb == if user in h.tokens then ta + {h.tokens[user]} else ta;
    assert Forgotten(a.handshakes, user, None).unidentified == b.handshakes.unidentified;
  }

  // ----- every run -----

  datatype ServerEvent =
    | AuthArrives(request: AuthRequest)
    | AcceptCall(user: UserKey, token: Token)
    | RejectCall(user: UserKey)
    | DisconnectCall(user: UserKey)
    | PacketArrives(address: Address, packet: Packet)
    | TimeoutCheck(aged: set<UserKey>)
    | ResetCall

  datatype Server = Alive(main: Main, log: seq<MainEvent>) | Dead(why: Panic)

  const EMPTY: Main := Main(Handshakes(map[], map[], map[]), map[], 0, map[])

  function Next(m: Main, requireAuth: bool, protocol: int, e: ServerEvent): Outcome {
    match e
    case AuthArrives(r) => ReceiveAuth(m, requireAuth, r.address, r.readable, r.token)
    case AcceptCall(user, token) => Accept(m, user, token)
    case RejectCall(user) => Reject(m, user)
    case DisconnectCall(user) => Delete(m, user)
    case PacketArrives(address, packet) => ReceivePacket(m, protocol, address, packet)
    case TimeoutCheck(aged) => Quiet(TimedOut(m, Doomed(m, aged)))
    case ResetCall => Quiet(EMPTY)
  }

  /** A panic ends the run; a reset starts over with an empty server and an empty log. */
  function Step(s: Server, requireAuth: bool, protocol: int, e: ServerEvent): Server {
    match s
    case Dead(_) => s
    case Alive(m, log) =>
      match Next(m, requireAuth, protocol, e)
      case Panicked(why) => Dead(why)
      case Running(m', emitted, _) => if e.ResetCall? then Alive(m', []) else Alive(m', log + emitted)
  }

  function Run(requireAuth: bool, protocol: int, events: seq<ServerEvent>): Server {
    if events == [] then Alive(EMPTY, [])
    else Step(Run(requireAuth, protocol, events[..|events| - 1]), requireAuth, protocol, events[|events| - 1])
  }

  /** `user_connections[a] = u` exactly when user `u` exists with data address `a`. */
  ghost predicate ConnectionsAgree(m: Main) {
    && (forall a :: a in m.connections ==> m.connections[a] in m.users && m.users[m.connections[a]].dataAddr == Some(a))
    && (forall u :: u in m.users && m.users[u].dataAddr.Some? ==>
          m.users[u].dataAddr.value in m.connections && m.connections[m.users[u].dataAddr.value] == u)
  }

  /** Every token waiting to be presented belongs to an existing, unidentified user and is the one recorded for it. */
  ghost predicate TokensAgree(m: Main) {
    && (forall t :: t in m.handshakes.unidentified ==>
          var u := m.handshakes.unidentified[t];
          u in m.users && m.users[u].dataAddr.None? && u in m.handshakes.tokens && m.handshakes.tokens[u] == t)
    && (forall u :: u in m.handshakes.tokens <==> u in m.users && m.users[u].authAddr.None?)
    && (forall u :: u in m.users && m.users[u].dataAddr.Some? ==> m.users[u].authAddr.None?)
  }

  ghost predicate Inv(m: Main) {
    && ConnectionsAgree(m)
    && m.handshakes.identified == m.connections
    && TokensAgree(m)
    && (forall u :: u in m.users ==> u < m.nextKey)
  }

  lemma AcceptKeeps(m: Main, user: UserKey, token: Token)
    requires Inv(m)
    ensures Accept(m, user, token).Running? ==> Inv(Accept(m, user, token).main)
  {
  }

  lemma DeleteKeeps(m: Main, user: UserKey)
    requires Inv(m) && user in m.users
    ensures Inv(Delete(m, user).main)
  {
  }

  lemma AuthKeeps(m: Main, requireAuth: bool, r: AuthRequest)
    requires Inv(m)
    ensures var o := ReceiveAuth(m, requireAuth, r.address, r.readable, r.token);
            && (o.Running? ==> Inv(o.main))
            && (o.Panicked? <==> m.nextKey == MAX_KEY)
  {
    var added := m.(nextKey := m.nextKey + 1, users := m.users[m.nextKey := MainUser(Some(r.address), None)]);
    assert Inv(added);
    AcceptKeeps(added, m.nextKey, r.token);
  }

  lemma IdentifyKeeps(m: Main, address: Address, token: Token)
    requires Inv(m) && token in m.handshakes.unidentified && address !in m.connections
    ensures var h, u := m.handshakes, m.handshakes.unidentified[token];
            && u in m.users && u in h.tokens && m.users[u].dataAddr.None?
            && Inv(Main(h.(unidentified := h.unidentified - {token}, identified := h.identified[address := u]),
                        m.users[u := m.users[u].(dataAddr := Some(address))],
                        m.nextKey,
                        m.connections[address := u]))
  {
    var h, u := m.handshakes, m.handshakes.unidentified[token];
    forall t | t in h.unidentified && t != token ensures h.unidentified[t] != u {
      assert h.tokens[h.unidentified[t]] == t;
    }
  }

  /** No packet, whatever it claims, reaches the "shouldn't be possible" panic or finalises an unknown user. */
  lemma PacketKeeps(m: Main, protocol: int, address: Address, packet: Packet)
    requires Inv(m)
    ensures var o := ReceivePacket(m, protocol, address, packet);
            o.Running? && Inv(o.main) && UnknownUserWarning !in o.emitted
  {
    hide Inv;
    if packet.Handshake? && packet.header.ClientIdentifyRequest? && packet.header.token.Some? {
      var token := packet.header.token.value;
      if token in m.handshakes.unidentified && address !in m.connections {
        IdentifyKeeps(m, address, token);
      }
    }
  }

  lemma TimeoutKeeps(m: Main, doomed: set<UserKey>)
    requires Inv(m) && forall u :: u in doomed ==> u in m.users && m.users[u].dataAddr.None?
    ensures Inv(TimedOut(m, doomed))
  {
  }

  /** Exactly when each call panics, in terms of what a caller can see. */
  lemma PanicsExactlyWhen(m: Main, requireAuth: bool, protocol: int, e: ServerEvent)
    requires Inv(m)
    ensures Next(m, requireAuth, protocol, e).Panicked? <==>
            match e
            case AuthArrives(_) => m.nextKey == MAX_KEY
            case AcceptCall(user, _) => user in m.handshakes.tokens
            case RejectCall(user) => user in m.handshakes.tokens
            case DisconnectCall(user) => user !in m.users
            case _ => false
    ensures Next(m, requireAuth, protocol, e) != Panicked(TokenMissing)
  {
    match e
    case AuthArrives(r) => AuthKeeps(m, requireAuth, r);
    case PacketArrives(address, packet) => PacketKeeps(m, protocol, address, packet);
    case _ =>
  }

  lemma NextKeeps(m: Main, requireAuth: bool, protocol: int, e: ServerEvent)
    requires Inv(m)
    ensures var o := Next(m, requireAuth, protocol, e);
            o.Running? ==> Inv(o.main) && UnknownUserWarning !in o.emitted
  {
    hide Inv;
    match e
    case AuthArrives(r) => AuthKeeps(m, requireAuth, r);
    case AcceptCall(user, token) => AcceptKeeps(m, user, token);
    case RejectCall(user) => if user in m.users { DeleteKeeps(m, user); }
    case DisconnectCall(user) => if user in m.users { DeleteKeeps(m, user); }
    case PacketArrives(address, packet) => PacketKeeps(m, protocol, address, packet);
    case TimeoutCheck(aged) => TimeoutKeeps(m, Doomed(m, aged));
    case ResetCall => EmptyInv();
  }

  lemma EmptyInv()
    ensures Inv(EMPTY)
  {
  }

  /** A user key that has been announced as connected is used up: still connected, or gone for good. */
  ghost predicate Spent(m: Main, u: UserKey) {
    u < m.nextKey && (u in m.users ==> m.users[u].dataAddr.Some?)
  }

  ghost predicate AnnouncedOnce(m: Main, log: seq<MainEvent>) {
    && (forall k :: 0 <= k < |log| && log[k].ConnectEvent? ==> Spent(m, log[k].user))
    && (forall j, k :: 0 <= j < k < |log| && log[j].ConnectEvent? ==> log[j] != log[k])
  }

  lemma SpentStays(m: Main, requireAuth: bool, protocol: int, e: ServerEvent, u: UserKey)
    requires Inv(m) && Spent(m, u) && !e.ResetCall?
    ensures var o := Next(m, requireAuth, protocol, e); o.Running? ==> Spent(o.main, u)
  {
  }

  /** A step announces at most one user, and one that was not announced before. */
  lemma AnnouncesFresh(m: Main, requireAuth: bool, protocol: int, e: ServerEvent)
    requires Inv(m)
    ensures var o := Next(m, requireAuth, protocol, e);
            o.Running? ==>
              && |o.emitted| <= 1
              && forall k :: 0 <= k < |o.emitted| && o.emitted[k].ConnectEvent? ==>
                   !Spent(m, o.emitted[k].user) && Spent(o.main, o.emitted[k].user)
  {
    if e.PacketArrives? && e.packet.Handshake? && e.packet.header.ClientIdentifyRequest? && e.packet.header.token.Some? {
      var token := e.packet.header.token.value;
      if token in m.handshakes.unidentified && e.address !in m.connections {
        IdentifyKeeps(m, e.address, token);
      }
    }
  }

  lemma StepKeeps(s: Server, requireAuth: bool, protocol: int, e: ServerEvent)
    requires s.Alive? && Inv(s.main) && AnnouncedOnce(s.main, s.log) && UnknownUserWarning !in s.log
    ensures var s' := Step(s, requireAuth, protocol, e);
            s'.Alive? ==> Inv(s'.main) && AnnouncedOnce(s'.main, s'.log) && UnknownUserWarning !in s'.log
  {
    hide Inv, Spent;
    NextKeeps(s.main, requireAuth, protocol, e);
    AnnouncesFresh(s.main, requireAuth, protocol, e);
    if !e.ResetCall? {
      forall k | 0 <= k < |s.log| && s.log[k].ConnectEvent?
        ensures Next(s.main, requireAuth, protocol, e).Running? ==>
                  Spent(Next(s.main, requireAuth, protocol, e).main, s.log[k].user)
      {
        SpentStays(s.main, requireAuth, protocol, e, s.log[k].user);
      }
    }
  }

  /**
   Every run: the five tables agree, no user is announced as connected twice, and
   neither the missing-token panic nor the finalising of an unknown user happens.
   */
  lemma {:induction false} EveryRunAgrees(requireAuth: bool, protocol: int, events: seq<ServerEvent>)
    ensures var s := Run(requireAuth, protocol, events);
            && (s.Alive? ==> Inv(s.main) && AnnouncedOnce(s.main, s.log) && UnknownUserWarning !in s.log)
            && s != Dead(TokenMissing)
  {
    if events == [] {
      EmptyInv();
    } else {
      var n := |events| - 1;
      EveryRunAgrees(requireAuth, protocol, events[..n]);
      var s := Run(requireAuth, protocol, events[..n]);
      if s.Alive? {
        StepKeeps(s, requireAuth, protocol, events[n]);
        PanicsExactlyWhen(s.main, requireAuth, protocol, events[n]);
      }
    }
  }

  // ----- the object runs the events -----

  function AuthEvents(auths: seq<AuthRequest>): seq<ServerEvent> {
    seq(|auths|, i requires 0 <= i < |auths| => AuthArrives(auths[i]))
  }

  function PacketEvents(packets: seq<(Address, Packet)>): seq<ServerEvent> {
    seq(|packets|, i requires 0 <= i < |packets| => PacketArrives(packets[i].0, packets[i].1))
  }

  /** A live server goes where an outcome says. */
  ghost predicate GoesTo(s: Server, o: Outcome, s': Server) {
    s.Alive? ==> s' == match o case Panicked(why) => Dead(why) case Running(m, e, _) => Alive(m, s.log + e)
  }

  lemma RunOne(requireAuth: bool, protocol: int, before: seq<ServerEvent>, e: ServerEvent)
    ensures Run(requireAuth, protocol, before + [e]) == Step(Run(requireAuth, protocol, before), requireAuth, protocol, e)
  {
    assert (before + [e])[..|before|] == before;
  }

  lemma {:induction false} DeadStays(requireAuth: bool, protocol: int, before: seq<ServerEvent>, more: seq<ServerEvent>)
    requires Run(requireAuth, protocol, before).Dead?
    ensures Run(requireAuth, protocol, before + more) == Run(requireAuth, protocol, before)
  {
    if more == [] {
      assert before + more == before;
    } else {
      var n := |more| - 1;
      DeadStays(requireAuth, protocol, before, more[..n]);
      assert (before + more)[..|before + more| - 1] == before + more[..n];
    }
  }

  lemma {:induction false} RunAuths(requireAuth: bool, protocol: int, before: seq<ServerEvent>, auths: seq<AuthRequest>)
    ensures var s := Run(requireAuth, protocol, before);
            s.Alive? ==> GoesTo(s, ReceiveAuths(s.main, requireAuth, auths), Run(requireAuth, protocol, before + AuthEvents(auths)))
    decreases |auths|
  {
    hide ReceiveAuth;
    var s := Run(requireAuth, protocol, before);
    if auths == [] {
      assert before + AuthEvents(auths) == before;
    } else if s.Alive? {
      var e := AuthArrives(auths[0]);
      RunOne(requireAuth, protocol, before, e);
      assert before + AuthEvents(auths) == (before + [e]) + AuthEvents(auths[1..]);
      var s1 := Run(requireAuth, protocol, before + [e]);
      if s1.Alive? {
        RunAuths(requireAuth, protocol, before + [e], auths[1..]);
        LogGrows(s.log, ReceiveAuth(s.main, requireAuth, auths[0].address, auths[0].readable, auths[0].token).emitted,
                 ReceiveAuths(s1.main, requireAuth, auths[1..]));
      } else {
        DeadStays(requireAuth, protocol, before + [e], AuthEvents(auths[1..]));
      }
    }
  }

  lemma LogGrows(log: seq<MainEvent>, first: seq<MainEvent>, o: Outcome)
    ensures o.Running? ==> (log + first) + o.emitted == log + (first + o.emitted)
  {
  }

  lemma {:induction false} RunPackets(requireAuth: bool, protocol: int, before: seq<ServerEvent>, packets: seq<(Address, Packet)>)
    ensures var s := Run(requireAuth, protocol, before);
            s.Alive? ==> GoesTo(s, ReceivePackets(s.main, protocol, packets), Run(requireAuth, protocol, before + PacketEvents(packets)))
    decreases |packets|
  {
    hide ReceivePacket;
    var s := Run(requireAuth, protocol, before);
    if packets == [] {
      assert before + PacketEvents(packets) == before;
    } else if s.Alive? {
      var e := PacketArrives(packets[0].0, packets[0].1);
      RunOne(requireAuth, protocol, before, e);
      assert before + PacketEvents(packets) == (before + [e]) + PacketEvents(packets[1..]);
      var s1 := Run(requireAuth, protocol, before + [e]);
      if s1.Alive? {
        RunPackets(requireAuth, protocol, before + [e], packets[1..]);
        LogGrows(s.log, ReceivePacket(s.main, protocol, packets[0].0, packets[0].1).emitted, ReceivePackets(s1.main, protocol, packets[1..]));
      } else {
        DeadStays(requireAuth, protocol, before + [e], PacketEvents(packets[1..]));
      }
    }
  }

  /** What the object does with a socket's contents is a run of the events in it: every auth, every packet, then the timeouts. */
  lemma MaintainedIsRun(requireAuth: bool, protocol: int, before: seq<ServerEvent>, auths: seq<AuthRequest>,
                        packets: seq<(Address, Packet)>, aged: set<UserKey>)
    requires Run(requireAuth, protocol, before).Alive?
    ensures var s := Run(requireAuth, protocol, before);
            GoesTo(s, Maintained(s.main, requireAuth, protocol, auths, packets, aged),
                   Run(requireAuth, protocol, before + AuthEvents(auths) + PacketEvents(packets) + [TimeoutCheck(aged)]))
  {
    hide Run, ReceiveAuths, ReceivePackets, Doomed, TimedOut, AuthEvents, PacketEvents, ReceiveAuth, ReceivePacket, Accept, Reject, Delete;
    var s := Run(requireAuth, protocol, before);
    var e1 := before + AuthEvents(auths);
    var e2 := e1 + PacketEvents(packets);
    RunAuths(requireAuth, protocol, before, auths);
    var s1 := Run(requireAuth, protocol, e1);
    RunOne(requireAuth, protocol, e2, TimeoutCheck(aged));
    if s1.Dead? {
      DeadStays(requireAuth, protocol, e1, PacketEvents(packets));
    } else {
      RunPackets(requireAuth, protocol, e1, packets);
      LogGrows(s.log, ReceiveAuths(s.main, requireAuth, auths).emitted, ReceivePackets(s1.main, protocol, packets));
    }
  }

  // ----- fresh tokens -----

  /** The token an event issues, if it issues one. */
  function Issued(requireAuth: bool, e: ServerEvent): Option<Token> {
    match e
    case AuthArrives(r) => if requireAuth then None else Some(r.token)
    case AcceptCall(_, token) => Some(token)
    case _ => None
  }

  ghost predicate AllFresh(requireAuth: bool, events: seq<ServerEvent>) {
    forall i, j :: 0 <= i < j < |events| && Issued(requireAuth, events[i]).Some? ==>
      Issued(requireAuth, events[i]) != Issued(requireAuth, events[j])
  }

  /** Every accepted user that has not identified yet can still do so with its own token. */
  ghost predicate Usable(m: Main) {
    forall u :: u in m.handshakes.tokens && u in m.users && m.users[u].dataAddr.None? ==>
      m.handshakes.tokens[u] in m.handshakes.unidentified && m.handshakes.unidentified[m.handshakes.tokens[u]] == u
  }

  ghost predicate Injective(m: Main) {
    forall u, v :: u in m.handshakes.tokens && v in m.handshakes.tokens && u != v ==>
      m.handshakes.tokens[u] != m.handshakes.tokens[v]
  }

  ghost predicate Unused(m: Main, token: Token) {
    forall u :: u in m.handshakes.tokens ==> m.handshakes.tokens[u] != token
  }

  lemma TokensGrow(m: Main, requireAuth: bool, protocol: int, e: ServerEvent)
    requires Inv(m)
    ensures var o := Next(m, requireAuth, protocol, e);
            o.Running? ==> forall u :: u in o.main.handshakes.tokens ==>
              || (u in m.handshakes.tokens && o.main.handshakes.tokens[u] == m.handshakes.tokens[u])
              || (Issued(requireAuth, e) == Some(o.main.handshakes.tokens[u]) && u !in m.handshakes.tokens)
  {
  }

  lemma AcceptUsable(m: Main, user: UserKey, token: Token)
    requires Inv(m) && Usable(m) && Injective(m) && Unused(m, token)
    ensures var o := Accept(m, user, token); o.Running? ==> Usable(o.main) && Injective(o.main)
  {
  }

  lemma DeleteUsable(m: Main, user: UserKey)
    requires Inv(m) && Usable(m) && Injective(m) && user in m.users
    ensures var o := Delete(m, user); Usable(o.main) && Injective(o.main)
  {
  }

  lemma TimeoutUsable(m: Main, doomed: set<UserKey>)
    requires Inv(m) && Usable(m) && Injective(m)
    ensures Usable(TimedOut(m, doomed)) && Injective(TimedOut(m, doomed))
  {
  }

  lemma PacketUsable(m: Main, protocol: int, address: Address, packet: Packet)
    requires Inv(m) && Usable(m) && Injective(m)
    ensures var o := ReceivePacket(m, protocol, address, packet); o.Running? ==> Usable(o.main) && Injective(o.main)
  {
  }

  lemma UsableStep(m: Main, requireAuth: bool, protocol: int, e: ServerEvent)
    requires Inv(m) && Usable(m) && Injective(m)
    requires Issued(requireAuth, e).Some? ==> Unused(m, Issued(requireAuth, e).value)
    ensures var o := Next(m, requireAuth, protocol, e); o.Running? ==> Usable(o.main) && Injective(o.main)
  {
    match e
    case AuthArrives(r) =>
      var added := m.(nextKey := m.nextKey + 1, users := m.users[m.nextKey := MainUser(Some(r.address), None)]);
      assert Inv(added) && Usable(added) && Injective(added);
      if !requireAuth { AcceptUsable(added, m.nextKey, r.token); }
    case AcceptCall(user, token) => AcceptUsable(m, user, token);
    case RejectCall(user) => if user in m.users { DeleteUsable(m, user); }
    case DisconnectCall(user) => if user in m.users { DeleteUsable(m, user); }
    case PacketArrives(address, packet) => PacketUsable(m, protocol, address, packet);
    case TimeoutCheck(aged) => TimeoutUsable(m, Doomed(m, aged));
    case ResetCall =>
  }

  /** The token an event hands out in this state, if it does. */
  function IssuedNow(m: Main, requireAuth: bool, e: ServerEvent): Option<Token> {
    match e
    case AuthArrives(r) => if requireAuth then None else Some(r.token)
    case AcceptCall(user, token) => if user in m.users then Some(token) else None
    case _ => None
  }

  /** Accepting a user keeps every accepted user able to identify, now and later, exactly if its token is not in use. */
  lemma AcceptUsableIff(m: Main, user: UserKey, token: Token)
    requires Inv(m) && Usable(m) && Injective(m) && user in m.users && m.users[user].authAddr.Some? && user !in m.handshakes.tokens
    ensures var o := Accept(m, user, token); o.Running? && (Usable(o.main) && Injective(o.main) <==> Unused(m, token))
  {
    if Unused(m, token) {
      AcceptUsable(m, user, token);
    } else {
      var u :| u in m.handshakes.tokens && m.handshakes.tokens[u] == token;
      var t := Accept(m, user, token).main.handshakes.tokens;
      assert t[u] == t[user] && u != user;
    }
  }

  /** A token in use locks a user out at once, or as soon as some user is disconnected; one not in use does neither. */
  lemma LocksOutIff(m: Main, user: UserKey, token: Token)
    requires Inv(m) && Usable(m) && Injective(m) && user in m.users && m.users[user].authAddr.Some? && user !in m.handshakes.tokens
    ensures var m' := Accept(m, user, token).main;
            Usable(m') && (forall u :: u in m'.users ==> Usable(Delete(m', u).main)) <==> Unused(m, token)
  {
    var m' := Accept(m, user, token).main;
    AcceptKeeps(m, user, token);
    if Unused(m, token) {
      AcceptUsable(m, user, token);
      hide Usable, Injective, Delete, Inv;
      forall u | u in m'.users ensures Usable(Delete(m', u).main) { DeleteUsable(m', u); }
    } else {
      var u :| u in m.handshakes.tokens && m.handshakes.tokens[u] == token;
      LosesSlot(m', u, user);
    }
  }

  lemma LosesSlot(m: Main, holder: UserKey, user: UserKey)
    requires Inv(m) && holder in m.handshakes.tokens && user in m.handshakes.tokens && holder != user
    requires m.handshakes.tokens[holder] == m.handshakes.tokens[user] && m.users[user].dataAddr.None?
    ensures holder in m.users && (!Usable(m) || !Usable(Delete(m, holder).main))
  {
    var m' := Delete(m, holder).main;
    assert m'.handshakes.tokens[user] !in m'.handshakes.unidentified;
  }

  lemma UsableStepIff(m: Main, requireAuth: bool, protocol: int, e: ServerEvent)
    requires Inv(m) && Usable(m) && Injective(m) && Next(m, requireAuth, protocol, e).Running?
    ensures var m' := Next(m, requireAuth, protocol, e).main;
            Usable(m') && Injective(m') <==>
            (IssuedNow(m, requireAuth, e).Some? ==> Unused(m, IssuedNow(m, requireAuth, e).value))
  {
    match e
    case AuthArrives(r) =>
      var added := m.(nextKey := m.nextKey + 1, users := m.users[m.nextKey := MainUser(Some(r.address), None)]);
      assert Inv(added) && Usable(added) && Injective(added);
      if !requireAuth { AcceptUsableIff(added, m.nextKey, r.token); }
    case AcceptCall(user, token) => if user in m.users { AcceptUsableIff(m, user, token); }
    case _ => UsableStep(m, requireAuth, protocol, e);
  }

  /** No token is handed out while a user still has it. */
  ghost predicate AllUnused(requireAuth: bool, protocol: int, events: seq<ServerEvent>) {
    forall n :: 0 <= n < |events| ==>
      var s := Run(requireAuth, protocol, events[..n]);
      s.Alive? && IssuedNow(s.main, requireAuth, events[n]).Some? ==>
        Unused(s.main, IssuedNow(s.main, requireAuth, events[n]).value)
  }

  /** If no token is handed out while in use, no accepted user is ever locked out. */
  lemma {:induction false} UnusedTokensStayUsable(requireAuth: bool, protocol: int, events: seq<ServerEvent>)
    requires AllUnused(requireAuth, protocol, events)
    ensures var s := Run(requireAuth, protocol, events);
            s.Alive? ==> Inv(s.main) && Usable(s.main) && Injective(s.main)
  {
    hide Next, Usable, Injective, Inv, Unused;
    EveryRunAgrees(requireAuth, protocol, events);
    if events == [] {
      EmptyUsable();
    } else {
      var n := |events| - 1;
      var before := events[..n];
      assert forall k :: 0 <= k < n ==> before[..k] == events[..k];
      UnusedTokensStayUsable(requireAuth, protocol, before);
      var s := Run(requireAuth, protocol, before);
      if s.Alive? && Next(s.main, requireAuth, protocol, events[n]).Running? {
        UsableStepIff(s.main, requireAuth, protocol, events[n]);
        EmptyUsable();
      }
    }
  }

  lemma EmptyUsable()
    ensures Usable(EMPTY) && Injective(EMPTY)
  {
  }

  ghost predicate IssuedBy(requireAuth: bool, events: seq<ServerEvent>, token: Token) {
    exists i :: 0 <= i < |events| && Issued(requireAuth, events[i]) == Some(token)
  }

  /** If the token generator never repeats itself, no accepted user is ever locked out. */
  lemma {:induction false} FreshTokensStayUsable(requireAuth: bool, protocol: int, events: seq<ServerEvent>)
    requires AllFresh(requireAuth, events)
    ensures var s := Run(requireAuth, protocol, events);
            s.Alive? ==>
              && Inv(s.main) && Usable(s.main) && Injective(s.main)
              && forall u :: u in s.main.handshakes.tokens ==> IssuedBy(requireAuth, events, s.main.handshakes.tokens[u])
  {
    EveryRunAgrees(requireAuth, protocol, events);
    if events != [] {
      var n := |events| - 1;
      var before, e := events[..n], events[n];
      FreshTokensStayUsable(requireAuth, protocol, before);
      var s := Run(requireAuth, protocol, before);
      if s.Alive? {
        forall t | IssuedBy(requireAuth, before, t)
          ensures IssuedBy(requireAuth, events, t) && Issued(requireAuth, e) != Some(t)
        {
          var i :| 0 <= i < n && Issued(requireAuth, before[i]) == Some(t);
          assert events[i] == before[i];
        }
        UsableStep(s.main, requireAuth, protocol, e);
        TokensGrow(s.main, requireAuth, protocol, e);
        forall t | Issued(requireAuth, e) == Some(t) ensures IssuedBy(requireAuth, events, t) {
          assert events[n] == e;
        }
      }
    }
  }

  /** A repeated token does lock out: here user 0 has been accepted with token 7 and cannot identify any more. */
  lemma RepeatedTokenLocksOut(a: Address, b: Address, protocol: int, address: Address)
    ensures var m := Accept(Accept(ReceiveAuth(ReceiveAuth(EMPTY, true, a, true, 7).main, true, b, true, 7).main, 0, 7).main, 1, 7).main;
            && 0 in m.handshakes.tokens && m.handshakes.tokens[0] == 7
            && Handled(m.handshakes, protocol, address, ClientIdentifyRequest(protocol, Some(7)), false).1
               == FinalizeConnection(1, IdentifyResponse)
            && !Usable(m)
  {
    var m := Accept(Accept(ReceiveAuth(ReceiveAuth(EMPTY, true, a, true, 7).main, true, b, true, 7).main, 0, 7).main, 1, 7).main;
    assert m.users[0].dataAddr.None? && m.handshakes.unidentified[7] == 1;
  }
}

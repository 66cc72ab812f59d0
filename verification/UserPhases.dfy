/**
 What the main server's tables amount to. Three handshake maps, the user table and the connection
 table (`server/src/handshake/simple_handshaker.rs`, `server/src/server/main_server.rs`) together
 do what one map from users to phases does, as long as no token is handed out while in use.
 */
module UserPhases {
  import opened Options
  import opened ServerHandshake
  import M = MainServers

  datatype Phase = Waiting | Accepted(token: Token) | Identified(token: Token, address: Address)

  /** The users and the phase each is in. */
  datatype Book = Book(users: map<UserKey, Phase>, next: nat)

  datatype Progress = Stopped | Went(book: Book, emitted: seq<MainEvent>, sent: seq<(Address, Reply)>)

  predicate HasToken(b: Book, t: Token, u: UserKey) {
    u in b.users && b.users[u] == Accepted(t)
  }

  predicate IsAt(b: Book, a: Address, u: UserKey) {
    u in b.users && b.users[u].Identified? && b.users[u].address == a
  }

  /** The user accepted with a token that has not presented it yet. */
  ghost function Holder(b: Book, t: Token): (r: Option<UserKey>)
    ensures if r.Some? then HasToken(b, t, r.value) else forall u :: !HasToken(b, t, u)
  {
    if u :| HasToken(b, t, u) then Some(u) else None
  }

  /** The user that has identified from an address. */
  ghost function UserAt(b: Book, a: Address): (r: Option<UserKey>)
    ensures if r.Some? then IsAt(b, a, r.value) else forall u :: !IsAt(b, a, u)
  {
    if u :| IsAt(b, a, u) then Some(u) else None
  }

  function Same(b: Book): Progress {
    Went(b, [], [])
  }

  function Without(b: Book, u: UserKey): Progress {
    Same(b.(users := b.users - {u}))
  }

  ghost function Identify(b: Book, a: Address, token: Option<Token>): Progress {
    if UserAt(b, a).Some? then Went(b, [], [(a, IdentifyResponse)])
    else if token.None? then Same(b)
    else
      match Holder(b, token.value)
      case None => Went(b, [], [(a, RejectResponse(Auth))])
      case Some(u) =>
        Went(b.(users := b.users[u := Identified(token.value, a)]), [ConnectEvent(u)], [(a, IdentifyResponse)])
  }

  ghost function Hears(b: Book, protocol: int, a: Address, packet: Packet): Progress {
    var user := UserAt(b, a);
    match packet
    case WorldData => Went(b, if user.Some? then [WorldPacketEvent(user.value, a)] else [], [])
    case Handshake(header) =>
      match header
      case ClientIdentifyRequest(theirs, token) =>
        if theirs != protocol then Went(b, [], [(a, RejectResponse(ProtocolMismatch))]) else Identify(b, a, token)
      case ClientConnectRequest => Went(b, [if user.Some? then WorldPacketEvent(user.value, a) else UnroutableWarning], [])
      case Disconnect(claim) =>
        if user.Some? && claim == Some(b.users[user.value].token) then Went(b, [QueuedDisconnectEvent(user.value)], []) else Same(b)
      case _ => Same(b)
  }

  ghost function Advance(b: Book, requireAuth: bool, protocol: int, e: M.ServerEvent): Progress {
    match e
    case AuthArrives(r) =>
      if b.next == MAX_KEY then Stopped
      else Went(Book(b.users[b.next := if requireAuth then Waiting else Accepted(r.token)], b.next + 1),
                if requireAuth && r.readable then [AuthEvent(b.next)] else [], [])
    case AcceptCall(u, t) =>
      if u !in b.users then Went(b, [UnknownAcceptWarning], [])
      else if b.users[u] != Waiting then Stopped
      else Same(b.(users := b.users[u := Accepted(t)]))
    case RejectCall(u) =>
      if u !in b.users then Same(b) else if b.users[u] != Waiting then Stopped else Without(b, u)
    case DisconnectCall(u) => if u !in b.users then Stopped else Without(b, u)
    case PacketArrives(a, packet) => Hears(b, protocol, a, packet)
    case TimeoutCheck(aged) =>
      Same(b.(users := map u | u in b.users && (u in aged ==> b.users[u].Identified?) :: b.users[u]))
    case ResetCall => Same(Book(map[], 0))
  }

  // ----- what the tables say -----

  ghost predicate Sound(m: Main) {
    M.Inv(m) && M.Usable(m) && M.Injective(m)
  }

  ghost function PhaseOf(m: Main, u: UserKey): Phase
    requires M.Inv(m) && u in m.users
  {
    if m.users[u].authAddr.Some? then Waiting
    else if m.users[u].dataAddr.None? then Accepted(m.handshakes.tokens[u])
    else Identified(m.handshakes.tokens[u], m.users[u].dataAddr.value)
  }

  ghost function Shown(m: Main): Book
    requires M.Inv(m)
  {
    Book(map u | u in m.users :: PhaseOf(m, u), m.nextKey)
  }

  lemma AddressShown(m: Main, a: Address)
    requires M.Inv(m)
    ensures UserAt(Shown(m), a) == if a in m.connections then Some(m.connections[a]) else None
  {
    var b := Shown(m);
    if a in m.connections { assert IsAt(b, a, m.connections[a]); }
  }

  lemma TokenShown(m: Main, t: Token)
    requires Sound(m)
    ensures Holder(Shown(m), t) == if t in m.handshakes.unidentified then Some(m.handshakes.unidentified[t]) else None
  {
    var b := Shown(m);
    if t in m.handshakes.unidentified { assert HasToken(b, t, m.handshakes.unidentified[t]); }
  }

  /** The tables and the book go on alike. */
  ghost predicate Alike(o: Outcome, p: Progress) {
    && o.Running? == p.Went?
    && (o.Running? ==> M.Inv(o.main) && Shown(o.main) == p.book && o.emitted == p.emitted && o.sent == p.sent)
  }

  lemma AcceptAlike(m: Main, u: UserKey, t: Token)
    requires M.Inv(m)
    ensures Alike(Accept(m, u, t), Advance(Shown(m), true, 0, M.AcceptCall(u, t)))
  {
    M.AcceptKeeps(m, u, t);
  }

  function WithUser(m: Main, a: Address): Main {
    m.(nextKey := m.nextKey + 1, users := m.users[m.nextKey := MainUser(Some(a), None)])
  }

  lemma WithUserShown(m: Main, a: Address)
    requires M.Inv(m)
    ensures M.Inv(WithUser(m, a))
    ensures Shown(WithUser(m, a)) == Book(Shown(m).users[m.nextKey := Waiting], m.nextKey + 1)
  {
  }

  lemma AuthAlike(m: Main, requireAuth: bool, r: M.AuthRequest)
    requires M.Inv(m)
    ensures Alike(ReceiveAuth(m, requireAuth, r.address, r.readable, r.token), Advance(Shown(m), requireAuth, 0, M.AuthArrives(r)))
  {
    assert Shown(m).next == m.nextKey;
    hide Shown, M.Inv, Accept;
    WithUserShown(m, r.address);
    AcceptAlike(WithUser(m, r.address), m.nextKey, r.token);
  }

  lemma DeleteAlike(m: Main, u: UserKey)
    requires M.Inv(m)
    ensures Alike(Delete(m, u), Advance(Shown(m), true, 0, M.DisconnectCall(u)))
    ensures Alike(Reject(m, u), Advance(Shown(m), true, 0, M.RejectCall(u)))
  {
    if u in m.users { M.DeleteKeeps(m, u); }
  }

  lemma TimeoutAlike(m: Main, aged: set<UserKey>)
    requires M.Inv(m)
    ensures Alike(Quiet(TimedOut(m, Doomed(m, aged))), Advance(Shown(m), true, 0, M.TimeoutCheck(aged)))
  {
    M.TimeoutKeeps(m, Doomed(m, aged));
  }

  lemma IdentifyAlike(m: Main, protocol: int, a: Address, token: Option<Token>)
    requires Sound(m)
    ensures Alike(ReceivePacket(m, protocol, a, Handshake(ClientIdentifyRequest(protocol, token))), Identify(Shown(m), a, token))
  {
    M.PacketKeeps(m, protocol, a, Handshake(ClientIdentifyRequest(protocol, token)));
    AddressShown(m, a);
    if token.Some? {
      TokenShown(m, token.value);
      if a !in m.connections && token.value in m.handshakes.unidentified { M.IdentifyKeeps(m, a, token.value); }
    }
    hide UserAt, Holder;
  }

  lemma HearsAlike(m: Main, protocol: int, a: Address, packet: Packet)
    requires Sound(m)
    ensures Alike(ReceivePacket(m, protocol, a, packet), Hears(Shown(m), protocol, a, packet))
  {
    M.PacketKeeps(m, protocol, a, packet);
    AddressShown(m, a);
    if packet.Handshake? && packet.header.ClientIdentifyRequest? { IdentifyAlike(m, protocol, a, packet.header.token); }
    hide UserAt, Identify;
  }

  /** Every event: the tables do what the book does, in state, events and replies. */
  lemma AdvanceAlike(m: Main, requireAuth: bool, protocol: int, e: M.ServerEvent)
    requires Sound(m)
    ensures Alike(M.Next(m, requireAuth, protocol, e), Advance(Shown(m), requireAuth, protocol, e))
  {
    hide Alike, Shown;
    match e
    case AuthArrives(r) => AuthAlike(m, requireAuth, r);
    case AcceptCall(u, t) => AcceptAlike(m, u, t);
    case RejectCall(u) => DeleteAlike(m, u);
    case DisconnectCall(u) => DeleteAlike(m, u);
    case PacketArrives(a, packet) => HearsAlike(m, protocol, a, packet);
    case TimeoutCheck(aged) => TimeoutAlike(m, aged);
    case ResetCall => EmptyAlike();
  }

  lemma EmptyAlike()
    ensures Alike(Quiet(M.EMPTY), Same(Book(map[], 0)))
  {
    M.EmptyInv();
  }

  // ----- every run -----

  /** The book over a run, with everything emitted since the last reset; a panic ends it. */
  ghost function Kept(requireAuth: bool, protocol: int, events: seq<M.ServerEvent>): Progress {
    if events == [] then Same(Book(map[], 0))
    else
      var e := events[|events| - 1];
      match Kept(requireAuth, protocol, events[..|events| - 1])
      case Stopped => Stopped
      case Went(b, log, _) =>
        match Advance(b, requireAuth, protocol, e)
        case Stopped => Stopped
        case Went(b', emitted, _) => Went(b', if e.ResetCall? then [] else log + emitted, [])
  }

  /** Every run in which no token is handed out while in use: the server is where the book is, and has said the same. */
  lemma {:induction false} EveryRunIsTheBook(requireAuth: bool, protocol: int, events: seq<M.ServerEvent>)
    requires M.AllUnused(requireAuth, protocol, events)
    ensures var s, k := M.Run(requireAuth, protocol, events), Kept(requireAuth, protocol, events);
            && s.Alive? == k.Went?
            && (s.Alive? ==> M.Inv(s.main) && Shown(s.main) == k.book && s.log == k.emitted)
  {
    hide M.Next, Advance, M.Usable, M.Injective, M.Inv, M.Unused, Shown;
    M.UnusedTokensStayUsable(requireAuth, protocol, events);
    if events == [] {
      EmptyAlike();
    } else {
      var n := |events| - 1;
      var before := events[..n];
      assert forall k :: 0 <= k < n ==> before[..k] == events[..k];
      EveryRunIsTheBook(requireAuth, protocol, before);
      M.UnusedTokensStayUsable(requireAuth, protocol, before);
      var s := M.Run(requireAuth, protocol, before);
      if s.Alive? { AdvanceAlike(s.main, requireAuth, protocol, events[n]); }
    }
  }

  // ----- disconnects and departures, for any tokens -----

  /** A packet queues a user's disconnect exactly if it comes from the user's address and carries the user's token. */
  lemma DisconnectQueuedIff(m: Main, protocol: int, a: Address, packet: Packet, u: UserKey)
    requires M.Inv(m)
    ensures var o := ReceivePacket(m, protocol, a, packet);
            o.Running? && QueuedDisconnectEvent(u) in o.emitted <==>
            && a in m.connections && m.connections[a] == u
            && u in m.handshakes.tokens && packet == Handshake(Disconnect(Some(m.handshakes.tokens[u])))
  {
    M.PacketKeeps(m, protocol, a, packet);
  }

  /** The event takes the user away. */
  ghost predicate Removes(m: Main, e: M.ServerEvent, u: UserKey) {
    match e
    case RejectCall(v) => v == u
    case DisconnectCall(v) => v == u
    case TimeoutCheck(aged) => u in aged && u in m.users && m.users[u].dataAddr.None?
    case ResetCall => true
    case _ => false
  }

  /** Who is there afterwards, and that nobody else's connection is touched. */
  lemma StaysIff(m: Main, requireAuth: bool, protocol: int, e: M.ServerEvent, u: UserKey)
    requires M.Inv(m) && M.Next(m, requireAuth, protocol, e).Running?
    ensures var m' := M.Next(m, requireAuth, protocol, e).main;
            && (u in m'.users <==> (u in m.users && !Removes(m, e, u)) || (e.AuthArrives? && u == m.nextKey))
            && (u in m.users && u in m'.users && m.users[u].dataAddr.Some? ==>
                  m'.users[u] == m.users[u] && m'.connections[m.users[u].dataAddr.value] == u)
  {
    M.NextKeeps(m, requireAuth, protocol, e);
    if e.PacketArrives? && e.packet.Handshake? && e.packet.header.ClientIdentifyRequest? && e.packet.header.token.Some? {
      var token := e.packet.header.token.value;
      if token in m.handshakes.unidentified && e.address !in m.connections { M.IdentifyKeeps(m, e.address, token); }
    }
  }
}

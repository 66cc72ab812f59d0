/**
 The server's half of the handshake: the token and address maps of
 `server/src/handshake/simple_handshaker.rs` and the user tables of
 `server/src/server/main_server.rs`.

 Each object's methods are specified by functions on `Handshakes` and `Main`
 values; what every run of the server keeps is proved about those.
 */
module ServerHandshake {
  import opened Options

  type UserKey = nat
  type Address = int
  type Token = int

  const MAX_KEY: nat := 0xFFFF_FFFF_FFFF_FFFF

  // ----- packets -----

  /** A handshake packet as the server reads it; an unreadable token is `None`. */
  datatype Header =
    | ClientIdentifyRequest(protocol: int, token: Option<Token>)
    | ClientConnectRequest
    | Disconnect(claim: Option<Token>)
    | Unexpected
    | Unreadable

  datatype Packet = WorldData | Handshake(header: Header)

  datatype RejectReason = ProtocolMismatch | Auth

  datatype Reply = IdentifyResponse | RejectResponse(reason: RejectReason)

  datatype Action =
    | NoAction
    | SendPacket(reply: Reply)
    | ForwardPacket
    | DisconnectUser(user: UserKey)
    | FinalizeConnection(user: UserKey, reply: Reply)
    | MalformedPacket
    | TokenMissingPanic

  // ----- the handshake manager -----

  datatype Handshakes = Handshakes(
    identified: map<Address, UserKey>,
    unidentified: map<Token, UserKey>,
    tokens: map<UserKey, Token>)

  function Authenticated(h: Handshakes, token: Token, user: UserKey): Handshakes {
    h.(unidentified := h.unidentified[token := user], tokens := h.tokens[user := token])
  }

  function Forgotten(h: Handshakes, user: UserKey, address: Option<Address>): Handshakes {
    h.(unidentified := if user in h.tokens then h.unidentified - {h.tokens[user]} else h.unidentified,
       tokens := h.tokens - {user},
       identified := if address.Some? then h.identified - {address.value} else h.identified)
  }

  predicate Verified(h: Handshakes, address: Address, claim: Option<Token>) {
    && claim.Some?
    && address in h.identified
    && h.identified[address] in h.tokens
    && h.tokens[h.identified[address]] == claim.value
  }

  function Handled(h: Handshakes, protocol: int, address: Address, header: Header, hasConnection: bool): (Handshakes, Action) {
    match header
    case ClientIdentifyRequest(theirs, token) =>
      if theirs != protocol then (h, SendPacket(RejectResponse(ProtocolMismatch)))
      else if hasConnection then (h, SendPacket(IdentifyResponse))
      else if token.None? then (h, NoAction)
      else if token.value !in h.unidentified then (h, SendPacket(RejectResponse(Auth)))
      else
        var user := h.unidentified[token.value];
        var taken := h.(unidentified := h.unidentified - {token.value});
        if user !in h.tokens then (taken, TokenMissingPanic)
        else (taken.(identified := taken.identified[address := user]), FinalizeConnection(user, IdentifyResponse))
    case ClientConnectRequest => (h, ForwardPacket)
    case Disconnect(claim) =>
      (h, if Verified(h, address, claim) then DisconnectUser(h.identified[address]) else NoAction)
    case Unexpected => (h, NoAction)
    case Unreadable => (h, MalformedPacket)
  }

  class HandshakeManager {
    const protocolId: int
    var identified: map<Address, UserKey>
    var unidentified: map<Token, UserKey>
    var identityTokens: map<UserKey, Token>

    ghost function State(): Handshakes
      reads this
    {
      Handshakes(identified, unidentified, identityTokens)
    }

    constructor (protocolId: int)
      ensures State() == Handshakes(map[], map[], map[]) && this.protocolId == protocolId
    {
      this.protocolId := protocolId;
      identified, unidentified, identityTokens := map[], map[], map[];
    }

    method AuthenticateUser(token: Token, user: UserKey)
      modifies this
      ensures State() == Authenticated(old(State()), token, user)
    {
      unidentified := unidentified[token := user];
      identityTokens := identityTokens[user := token];
    }

    method DeleteUser(user: UserKey, address: Option<Address>)
      modifies this
      ensures State() == Forgotten(old(State()), user, address)
    {
      if user in identityTokens {
        var token := identityTokens[user];
        identityTokens := identityTokens - {user};
        unidentified := unidentified - {token};
      }
      if address.Some? {
        identified := identified - {address.value};
      }
      assert user !in old(identityTokens) ==> identityTokens == old(identityTokens) - {user};
    }

    method VerifyDisconnectRequest(address: Address, claim: Option<Token>) returns (ok: bool)
      ensures ok == Verified(State(), address, claim)
    {
      if claim.None? { return false; }
      if address !in identified { return false; }
      var user := identified[address];
      if user !in identityTokens { return false; }
      return identityTokens[user] == claim.value;
    }

    method MaintainHandshake(address: Address, header: Header, hasConnection: bool) returns (action: Action)
      modifies this
      ensures (State(), action) == Handled(old(State()), protocolId, address, header, hasConnection)
    {
      match header
      case ClientIdentifyRequest(theirs, token) =>
        if theirs != protocolId {
          return SendPacket(RejectResponse(ProtocolMismatch));
        }
        if hasConnection {
          return SendPacket(IdentifyResponse);
        }
        if token.None? {
          return NoAction;
        }
        if token.value !in unidentified {
          return SendPacket(RejectResponse(Auth));
        }
        var user := unidentified[token.value];
        unidentified := unidentified - {token.value};
        if user !in identityTokens {
          return TokenMissingPanic;
        }
        identified := identified[address := user];
        return FinalizeConnection(user, IdentifyResponse);
      case ClientConnectRequest =>
        return ForwardPacket;
      case Disconnect(claim) =>
        var ok := VerifyDisconnectRequest(address, claim);
        if ok && address in identified {
          return DisconnectUser(identified[address]);
        }
        return NoAction;
      case Unexpected =>
        return NoAction;
      case Unreadable =>
        return MalformedPacket;
    }

    method Reset()
      modifies this
      ensures State() == Handshakes(map[], map[], map[])
    {
      identified, unidentified, identityTokens := map[], map[], map[];
    }
  }

  // ----- the main server -----

  /** `auth_addr` is taken when the application answers the request, `data_addr` set when the client identifies. */
  datatype MainUser = MainUser(authAddr: Option<Address>, dataAddr: Option<Address>)

  datatype MainEvent =
    | AuthEvent(user: UserKey)
    | ConnectEvent(user: UserKey)
    | WorldPacketEvent(user: UserKey, address: Address)
    | QueuedDisconnectEvent(user: UserKey)
    | UnknownUserWarning      // finalising a user that is not there
    | UnknownAcceptWarning    // accepting one
    | UnroutableWarning

  datatype Main = Main(
    handshakes: Handshakes,
    users: map<UserKey, MainUser>,
    nextKey: nat,
    connections: map<Address, UserKey>)

  datatype Panic = TokenMissing | AlreadyAnswered | NoSuchUser | KeysExhausted

  /** `sent` are the replies put on the wire, `emitted` the events handed to the rest of the server. */
  datatype Outcome =
    | Running(main: Main, emitted: seq<MainEvent>, sent: seq<(Address, Reply)>)
    | Panicked(why: Panic)

  function Quiet(m: Main): Outcome {
    Running(m, [], [])
  }

  /** `accept_connection`; the token comes from the random generator. */
  function Accept(m: Main, user: UserKey, token: Token): Outcome {
    if user !in m.users then Running(m, [UnknownAcceptWarning], [])
    else if m.users[user].authAddr.None? then Panicked(AlreadyAnswered)
    else Quiet(m.(users := m.users[user := m.users[user].(authAddr := None)],
                  handshakes := Authenticated(m.handshakes, token, user)))
  }

  function Delete(m: Main, user: UserKey): Outcome {
    if user !in m.users then Panicked(NoSuchUser)
    else
      var address := m.users[user].dataAddr;
      Quiet(Main(Forgotten(m.handshakes, user, address), m.users - {user}, m.nextKey,
                 if address.Some? then m.connections - {address.value} else m.connections))
  }

  function Reject(m: Main, user: UserKey): Outcome {
    if user !in m.users then Quiet(m)
    else if m.users[user].authAddr.None? then Panicked(AlreadyAnswered)
    else Delete(m, user)
  }

  function Finalize(m: Main, user: UserKey, address: Address, reply: Reply): Outcome {
    if user !in m.users then Running(m, [UnknownUserWarning], [(address, reply)])
    else
      Running(m.(users := m.users[user := m.users[user].(dataAddr := Some(address))],
                 connections := m.connections[address := user]),
              [ConnectEvent(user)], [(address, reply)])
  }

  /** A new auth request; `readable` says whether its message decodes. */
  function ReceiveAuth(m: Main, requireAuth: bool, authAddr: Address, readable: bool, token: Token): Outcome {
    if m.nextKey == MAX_KEY then Panicked(KeysExhausted)
    else
      var user := m.nextKey;
      var added := m.(nextKey := user + 1, users := m.users[user := MainUser(Some(authAddr), None)]);
      if requireAuth then Running(added, if readable then [AuthEvent(user)] else [], [])
      else Accept(added, user, token)
  }

  function Routed(m: Main, address: Address): Outcome {
    Running(m, if address in m.connections then [WorldPacketEvent(m.connections[address], address)] else [UnroutableWarning], [])
  }

  function ReceivePacket(m: Main, protocol: int, address: Address, packet: Packet): Outcome {
    match packet
    case WorldData =>
      Running(m, if address in m.connections then [WorldPacketEvent(m.connections[address], address)] else [], [])
    case Handshake(header) =>
      var (h, action) := Handled(m.handshakes, protocol, address, header, address in m.connections);
      var m' := m.(handshakes := h);
      match action
      case ForwardPacket => Routed(m', address)
      case DisconnectUser(user) => Running(m', [QueuedDisconnectEvent(user)], [])
      case SendPacket(reply) => Running(m', [], [(address, reply)])
      case FinalizeConnection(user, reply) => Finalize(m', user, address, reply)
      case TokenMissingPanic => Panicked(TokenMissing)
      case NoAction => Quiet(m')
      case MalformedPacket => Quiet(m')
  }

  /** Users the pending-auth timeout removes: old enough and not identified yet, answered or not. */
  function Doomed(m: Main, old': set<UserKey>): set<UserKey> {
    set u | u in m.users && u in old' && m.users[u].dataAddr.None?
  }

  /** Removing them all at once: no order of removal shows. */
  function TimedOut(m: Main, doomed: set<UserKey>): Main {
    var h := m.handshakes;
    m.(users := m.users - doomed,
       handshakes := h.(tokens := h.tokens - doomed,
                        unidentified := h.unidentified - (set u | u in doomed && u in h.tokens :: h.tokens[u])))
  }
}

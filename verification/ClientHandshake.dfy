/**
 The client's half of the handshake (`client/src/handshake/simple_handshaker.rs`):
 identify, synchronise clocks with a number of pings, ask to connect.
 */
module ClientHandshake {
  import opened Options

  type Token = int

  /** The time managers are known here only by the samples they were built from. */
  type Samples = seq<int>

  datatype State =
    | AwaitingIdentifyResponse
    | TimeSync(samples: Samples)
    | AwaitingConnectResponse(clock: Samples)
    | Connected

  function Index(s: State): nat {
    match s
    case AwaitingIdentifyResponse => 0
    case TimeSync(_) => 1
    case AwaitingConnectResponse(_) => 2
    case Connected => 3
  }

  datatype ToServer = IdentifyRequest(protocol: int, token: Token) | Ping | ConnectRequest

  /** A pong is unreadable, does not belong to an outstanding ping, or yields a sample. */
  datatype Pong = Garbled | Unmatched | Sample(value: int)

  datatype FromServer = IdentifyResponse | ConnectResponse | RejectResponse(reason: int) | PongPacket(pong: Pong) | Ignored

  datatype Result = Nothing | Rejected(reason: int) | Joined(clock: Samples)

  // ----- specification -----

  /** What is sent when the timer rings. */
  function Sends(s: State, protocol: int, token: Option<Token>): Option<ToServer> {
    match s
    case AwaitingIdentifyResponse => if token.Some? then Some(IdentifyRequest(protocol, token.value)) else None
    case TimeSync(_) => Some(Ping)
    case AwaitingConnectResponse(_) => Some(ConnectRequest)
    case Connected => None
  }

  function Receives(s: State, pings: nat, packet: FromServer): (State, Result) {
    match packet
    case IdentifyResponse => (if s.AwaitingIdentifyResponse? then TimeSync([]) else s, Nothing)
    case ConnectResponse => (Connected, if s.AwaitingConnectResponse? then Joined(s.clock) else Nothing)
    case RejectResponse(reason) => (s, Rejected(reason))
    case PongPacket(pong) =>
      if s.TimeSync? && pong.Sample? then
        var samples := s.samples + [pong.value];
        (if |samples| >= pings then AwaitingConnectResponse(samples) else TimeSync(samples), Nothing)
      else (s, Nothing)
    case Ignored => (s, Nothing)
  }

  class HandshakeManager {
    const protocolId: int
    const handshakePings: nat
    var state: State
    var identityToken: Option<Token>

    constructor (protocolId: int, handshakePings: nat)
      ensures state == AwaitingIdentifyResponse && identityToken == None
      ensures this.protocolId == protocolId && this.handshakePings == handshakePings
    {
      this.protocolId, this.handshakePings := protocolId, handshakePings;
      state, identityToken := AwaitingIdentifyResponse, None;
    }

    method SetIdentityToken(token: Token)
      modifies this`identityToken
      ensures identityToken == Some(token)
    {
      identityToken := Some(token);
    }

    method Send(ringing: bool) returns (packet: Option<ToServer>)
      ensures packet == if ringing then Sends(state, protocolId, identityToken) else None
    {
      if !ringing {
        return None;
      }
      match state
      case AwaitingIdentifyResponse =>
        if identityToken.Some? {
          return Some(IdentifyRequest(protocolId, identityToken.value));
        }
        return None;
      case TimeSync(_) =>
        return Some(Ping);
      case AwaitingConnectResponse(_) =>
        return Some(ConnectRequest);
      case Connected =>
        return None;
    }

    method Recv(packet: FromServer) returns (result: Result)
      modifies this`state
      ensures (state, result) == Receives(old(state), handshakePings, packet)
    {
      result := Nothing;
      match packet
      case IdentifyResponse =>
        RecvIdentifyResponse();
      case ConnectResponse =>
        result := RecvConnectResponse();
      case RejectResponse(reason) =>
        result := Rejected(reason);
      case PongPacket(pong) =>
        var success := false;
        if state.TimeSync? {
          if pong.Garbled? {
            return;
          }
          if pong.Sample? {
            state := TimeSync(state.samples + [pong.value]);
            success := |state.samples| >= handshakePings;
          }
        }
        if success {
          var old' := state;
          state := Connected;
          state := AwaitingConnectResponse(old'.samples);
        }
      case Ignored =>
    }

    method RecvIdentifyResponse()
      modifies this`state
      ensures state == if old(state).AwaitingIdentifyResponse? then TimeSync([]) else old(state)
    {
      if state.AwaitingIdentifyResponse? {
        state := TimeSync([]);
      }
    }

    /** The state is replaced before it is looked at: only a client that is waiting gets its clock back. */
    method RecvConnectResponse() returns (result: Result)
      modifies this`state
      ensures state == Connected
      ensures result == if old(state).AwaitingConnectResponse? then Joined(old(state).clock) else Nothing
    {
      var old' := state;
      state := Connected;
      if !old'.AwaitingConnectResponse? {
        return Nothing;
      }
      return Joined(old'.clock);
    }
  }

  // ----- the replaced state -----

  function ReceivesAll(s: State, pings: nat, packets: seq<FromServer>): (State, seq<Result>)
    decreases |packets|
  {
    if packets == [] then (s, [])
    else
      var (s', r) := Receives(s, pings, packets[0]);
      var (s'', rs) := ReceivesAll(s', pings, packets[1..]);
      (s'', [r] + rs)
  }

  /** Once connected, nothing that arrives can make the client move, report a connection or send again. */
  lemma {:induction false} ConnectedIsFinal(pings: nat, packets: seq<FromServer>, protocol: int, token: Option<Token>)
    ensures var (s, rs) := ReceivesAll(Connected, pings, packets);
            s == Connected && Sends(s, protocol, token) == None && forall k :: 0 <= k < |rs| ==> !rs[k].Joined?
    decreases |packets|
  {
    if packets != [] { ConnectedIsFinal(pings, packets[1..], protocol, token); }
  }

  /**
   A connect response loses the handshake exactly when the client is not waiting for it
   and not done: it then stands as connected without ever having reported it.
   */
  lemma ConnectResponseLosesHandshakeIff(s: State, pings: nat)
    ensures var (s', r) := Receives(s, pings, ConnectResponse);
            (s' == Connected && !r.Joined? && s != Connected) <==> Index(s) < 2
  {
  }

  /** For instance, a response left over from an earlier session meeting a new one: no later packet can rescue it. */
  lemma LeftOverResponseStrands(pings: nat, packets: seq<FromServer>, protocol: int, token: Option<Token>)
    ensures var (s, rs) := ReceivesAll(AwaitingIdentifyResponse, pings, [ConnectResponse] + packets);
            s == Connected && Sends(s, protocol, token) == None && forall k :: 0 <= k < |rs| ==> !rs[k].Joined?
  {
    assert ([ConnectResponse] + packets)[1..] == packets;
    ConnectedIsFinal(pings, packets, protocol, token);
  }

  // ----- what the client has by when -----

  /** The samples heard since the first identify response, in order. */
  function Heard(packets: seq<FromServer>): Samples {
    if packets == [] then []
    else
      var n := |packets| - 1;
      Heard(packets[..n])
      + if IdentifyResponse in packets[..n] && packets[n].PongPacket? && packets[n].pong.Sample? then [packets[n].pong.value] else []
  }

  /** How many samples it takes; the first is needed even if none is asked for. */
  function Needed(pings: nat): nat {
    if pings == 0 then 1 else pings
  }

  /** Where a client stands that has not been answered: it waits until it has the samples, and keeps the first ones. */
  function Reached(pings: nat, packets: seq<FromServer>): State {
    var q := Heard(packets);
    if IdentifyResponse !in packets then AwaitingIdentifyResponse
    else if |q| < Needed(pings) then TimeSync(q)
    else AwaitingConnectResponse(q[..Needed(pings)])
  }

  lemma {:induction false} ReceivesConcat(s: State, pings: nat, a: seq<FromServer>, b: seq<FromServer>)
    ensures var x := ReceivesAll(s, pings, a);
            var y := ReceivesAll(x.0, pings, b);
            ReceivesAll(s, pings, a + b) == (y.0, x.1 + y.1) && |x.1| == |a|
    decreases |a|
  {
    if a == [] {
      assert a + b == b;
      var y := ReceivesAll(s, pings, b);
      assert [] + y.1 == y.1;
    } else {
      var (s', r) := Receives(s, pings, a[0]);
      assert (a + b)[1..] == a[1..] + b;
      ReceivesConcat(s', pings, a[1..], b);
      var x := ReceivesAll(s', pings, a[1..]);
      var y := ReceivesAll(x.0, pings, b);
      assert [r] + (x.1 + y.1) == ([r] + x.1) + y.1;
    }
  }

  lemma ReceivesOne(s: State, pings: nat, p: FromServer)
    ensures ReceivesAll(s, pings, [p]) == (Receives(s, pings, p).0, [Receives(s, pings, p).1])
  {
    assert [p][1..] == [];
    var (s', r) := Receives(s, pings, p);
    assert ReceivesAll(s', pings, []).1 == [] && [r] + [] == [r];
  }

  lemma HeardMore(packets: seq<FromServer>, p: FromServer)
    ensures IdentifyResponse !in packets ==> Heard(packets) == []
    ensures Heard(packets + [p]) ==
            Heard(packets) + if IdentifyResponse in packets && p.PongPacket? && p.pong.Sample? then [p.pong.value] else []
  {
    if IdentifyResponse !in packets { HeardNothingYet(packets); }
    assert (packets + [p])[..|packets|] == packets;
  }

  lemma {:induction false} HeardNothingYet(packets: seq<FromServer>)
    requires IdentifyResponse !in packets
    ensures Heard(packets) == []
  {
    if packets != [] { HeardNothingYet(packets[..|packets| - 1]); }
  }

  lemma ReachesMore(pings: nat, packets: seq<FromServer>, p: FromServer)
    requires p != ConnectResponse
    ensures Reached(pings, packets + [p]) == Receives(Reached(pings, packets), pings, p).0
  {
    HeardMore(packets, p);
    hide Heard;
    assert IdentifyResponse in packets + [p] <==> IdentifyResponse in packets || p == IdentifyResponse;
    var q := Heard(packets);
    if |q| >= Needed(pings) { assert Heard(packets + [p])[..Needed(pings)] == q[..Needed(pings)]; }
    if |q| + 1 == Needed(pings) && |Heard(packets + [p])| == Needed(pings) {
      assert Heard(packets + [p])[..Needed(pings)] == Heard(packets + [p]);
    }
  }

  /** Whatever arrives, as long as it is not a connect response. */
  lemma {:induction false} StandsWhereReached(pings: nat, packets: seq<FromServer>)
    requires ConnectResponse !in packets
    ensures ReceivesAll(AwaitingIdentifyResponse, pings, packets).0 == Reached(pings, packets)
  {
    if packets != [] {
      var n := |packets| - 1;
      var before := packets[..n];
      assert packets == before + [packets[n]];
      hide Reached, Receives, ReceivesAll;
      StandsWhereReached(pings, before);
      ReceivesConcat(AwaitingIdentifyResponse, pings, before, [packets[n]]);
      ReceivesOne(Reached(pings, before), pings, packets[n]);
      ReachesMore(pings, before, packets[n]);
    }
  }

  /** A rejection is reported when it comes; nothing but a connect response reports a connection. */
  lemma {:induction false} ReportsExactly(s: State, pings: nat, packets: seq<FromServer>, k: nat)
    requires k < |packets|
    ensures var rs := ReceivesAll(s, pings, packets).1;
            && |rs| == |packets|
            && (forall reason :: rs[k] == Rejected(reason) <==> packets[k] == RejectResponse(reason))
            && (rs[k].Joined? ==> packets[k] == ConnectResponse)
    decreases |packets|
  {
    var s' := Receives(s, pings, packets[0]).0;
    ReceivesConcat(s, pings, packets, []);
    if k > 0 { ReportsExactly(s', pings, packets[1..], k - 1); }
  }

  /** The first connect response joins exactly if the samples are there, with the first of them, and none joins later. */
  lemma JoinsWithItsSamples(pings: nat, before: seq<FromServer>, after: seq<FromServer>)
    requires ConnectResponse !in before
    ensures var (s, rs) := ReceivesAll(AwaitingIdentifyResponse, pings, before + ([ConnectResponse] + after));
            && s == Connected && |rs| == |before| + 1 + |after|
            && rs[|before|] == (if |Heard(before)| >= Needed(pings) then Joined(Heard(before)[..Needed(pings)]) else Nothing)
            && forall k :: |before| < k < |rs| ==> !rs[k].Joined?
  {
    hide ReceivesAll;
    StandsWhereReached(pings, before);
    ReceivesConcat(AwaitingIdentifyResponse, pings, before, [ConnectResponse] + after);
    ReceivesConcat(Reached(pings, before), pings, [ConnectResponse], after);
    ReceivesOne(Reached(pings, before), pings, ConnectResponse);
    ConnectedIsFinal(pings, after, 0, None);
    ReceivesConcat(Connected, pings, after, []);
    if IdentifyResponse !in before { HeardNothingYet(before); }
    hide Heard;
  }
}

/**
 * `GameClient`: the session fields the receive thread writes and the screen
 * reads, the outgoing datagrams, and the two background loops, each stated
 * against the value-level state machine of `SessionState`.
 */
module Client {
  import opened Wrappers
  import opened Numbers
  import opened Text
  import opened Protocol
  import opened SessionState
  import opened Discovery

  /** `n` JOIN requests. */
  function Joins(n: nat): seq<string>
  {
    if n == 0 then [] else Joins(n - 1) + ["JOIN"]
  }

  lemma AppendAssociates<T>(a: seq<T>, b: seq<T>, c: seq<T>)
    ensures a + b + c == a + (b + c)
  {
  }

  class GameClient {
    /** `ipServidor`, resolved by discovery before the client exists. */
    const server: Address

    var myId: Int32
    var playerCount: Int32
    var ready: bool
    var startGame: bool
    var otherPlayer: Option<PlayerState>

    /** Whether `onStartGame` / `onObstacleReceived` are set (non-null). */
    var onStartGame: bool
    var onObstacleReceived: bool

    /** How often the start callback ran, and the obstacles handed to the obstacle callback. */
    var startCalls: nat
    var delivered: seq<ObstacleState>

    /** Every datagram handed to the socket for the server, in order; a failed send is not distinguished. */
    var sent: seq<string>

    /** The public session fields as one value. */
    function Snapshot(): Session
      reads this
    {
      Session(myId, playerCount, ready, startGame, otherPlayer)
    }

    /** A client whose discovery found `server`; no callback is registered yet. */
    constructor(server: Address)
      ensures this.server == server && Snapshot() == Unjoined
      ensures !onStartGame && !onObstacleReceived
      ensures startCalls == 0 && delivered == [] && sent == []
    {
      this.server := server;
      myId, playerCount, ready, startGame, otherPlayer := 0, 0, false, false, None;
      onStartGame, onObstacleReceived := false, false;
      startCalls, delivered, sent := 0, [], [];
    }

    /** `sendReady`: marks the client ready and sends one READY; a second call leaves `ready` true. */
    method SendReady()
      modifies this`ready, this`sent
      ensures ready
      ensures sent == old(sent) + ["READY"]
    {
      ready := true;
      sent := sent + ["READY"];
    }

    /** `send(estado)`: one STATE datagram, no retry. */
    method Send(ps: PlayerState)
      modifies this`sent
      ensures sent == old(sent) + [EncodeState(ps)]
    {
      sent := sent + [EncodeState(ps)];
    }

    /**
     * `procesar(msg)`: at most one session field changes, callbacks run only
     * when registered, and `fault` reports the NumberFormatException Java
     * lets escape (the receive loop swallows it).
     */
    method Procesar(msg: string) returns (fault: bool)
      modifies this`myId, this`playerCount, this`startGame, this`otherPlayer, this`startCalls, this`delivered
      ensures var st := Process(old(Snapshot()), msg);
        && Snapshot() == st.session
        && (fault <==> st.effect == NumberFault)
        && startCalls == old(startCalls) + (if onStartGame && st.effect == StartSignal then 1 else 0)
        && delivered == old(delivered) + (if onObstacleReceived && st.effect.ObstacleSignal? then [st.effect.obstacle] else [])
    {
      fault := false;
      if StartsWith(msg, "ASSIGN;") {
        match ReadInt(msg, "id") {
          case Present(id) => myId := id;
          case Malformed => fault := true;
          case Absent =>
        }
      } else if StartsWith(msg, "COUNT;") {
        match ReadInt(msg, "players") {
          case Present(c) => playerCount := c;
          case Malformed => fault := true;
          case Absent =>
        }
      } else if msg == "START" {
        startGame := true;
        if onStartGame {
          startCalls := startCalls + 1;
        }
      } else if StartsWith(msg, "STATE;") {
        var ps := ParsePlayerState(msg);
        if ps.Some? {
          otherPlayer := ps;
        }
      } else if StartsWith(msg, "OBST;") {
        var eo := ParseObstacle(msg);
        if eo.Some? && onObstacleReceived {
          delivered := delivered + [eo.value];
        }
      }
    }

    /**
     * The client's fields after trace `t`, started from the session `t`
     * began with and the callback logs `calls0` and `delivered0`.
     */
    ghost predicate Logged(calls0: nat, delivered0: seq<ObstacleState>, t: Trace)
      reads this
    {
      && Snapshot() == t.session
      && startCalls == calls0 + (if onStartGame then t.starts else 0)
      && delivered == delivered0 + (if onObstacleReceived then t.obstacles else [])
    }

    /**
     * `loopRecepcion` over the datagrams that arrive before the socket is
     * closed: each is trimmed and processed, and a fault is ignored.
     */
    method ReceiveLoop(datagrams: seq<string>)
      modifies this`myId, this`playerCount, this`startGame, this`otherPlayer, this`startCalls, this`delivered
      ensures Logged(old(startCalls), old(delivered), ReceiveAll(old(Snapshot()), datagrams))
    {
      ghost var s0 := Snapshot();
      var i := 0;
      while i < |datagrams|
        invariant i <= |datagrams|
        invariant Logged(old(startCalls), old(delivered), ReceiveAll(s0, datagrams[..i]))
      {
        ghost var t := ReceiveAll(s0, datagrams[..i]);
        ghost var st := Receive(t.session, datagrams[i]);
        var _ := Procesar(Trim(datagrams[i]));
        assert datagrams[..i + 1][..i] == datagrams[..i];
        assert ReceiveAll(s0, datagrams[..i + 1]) == Record(t, st);
        AppendAssociates(old(delivered), t.obstacles, if st.effect.ObstacleSignal? then [st.effect.obstacle] else []);
        i := i + 1;
      }
      assert datagrams[..i] == datagrams;
    }

    /** One pass of the join-retry loop: a JOIN, then round `k` arrives during the sleep. */
    method JoinRound(ghost s0: Session, rounds: seq<seq<string>>, k: nat, ghost calls0: nat, ghost delivered0: seq<ObstacleState>)
      requires k < |rounds|
      requires Logged(calls0, delivered0, RoundsTrace(s0, rounds, k))
      modifies this`myId, this`playerCount, this`startGame, this`otherPlayer, this`startCalls, this`delivered, this`sent
      ensures Logged(calls0, delivered0, RoundsTrace(s0, rounds, k + 1))
      ensures sent == old(sent) + ["JOIN"]
    {
      ghost var t := RoundsTrace(s0, rounds, k);
      sent := sent + ["JOIN"];
      ReceiveLoop(rounds[k]);
      ghost var u := ReceiveAll(t.session, rounds[k]);
      assert RoundsTrace(s0, rounds, k + 1) == Then(t, u);
      AppendAssociates(delivered0, t.obstacles, u.obstacles);
    }

    /**
     * The join-retry thread: while `myId` is 0 it sends JOIN and sleeps;
     * `rounds[k]` are the datagrams the receive thread handles during the
     * `k`-th sleep.
     */
    method JoinRetry(rounds: seq<seq<string>>) returns (joins: nat)
      modifies this`myId, this`playerCount, this`startGame, this`otherPlayer, this`startCalls, this`delivered, this`sent
      ensures joins == JoinsFrom(old(Snapshot()), rounds, 0)
      ensures sent == old(sent) + Joins(joins)
      ensures Logged(old(startCalls), old(delivered), RoundsTrace(old(Snapshot()), rounds, joins))
    {
      ghost var s0 := Snapshot();
      joins := 0;
      while myId == 0 && joins < |rounds|
        invariant joins <= |rounds|
        invariant JoinsFrom(s0, rounds, joins) == JoinsFrom(s0, rounds, 0)
        invariant sent == old(sent) + Joins(joins)
        invariant Logged(old(startCalls), old(delivered), RoundsTrace(s0, rounds, joins))
      {
        assert Unassigned(s0, rounds, joins);
        JoinRound(s0, rounds, joins, old(startCalls), old(delivered));
        AppendAssociates(old(sent), Joins(joins), ["JOIN"]);
        joins := joins + 1;
      }
      assert joins == |rounds| || !Unassigned(s0, rounds, joins);
    }
  }

  /**
   * The constructor: discovery first; with no server the client is not
   * created (Java throws), otherwise it starts with every field at rest.
   */
  method Connect(replies: seq<Reply>) returns (client: Option<GameClient>, probes: nat)
    ensures probes == DiscoverFrom(replies, 0).probes && probes <= Attempts
    ensures client.Some? <==> DiscoverFrom(replies, 0).server.Some?
    ensures client.Some? ==>
      && fresh(client.value)
      && client.value.server == DiscoverFrom(replies, 0).server.value
      && client.value.Snapshot() == Unjoined
      && !client.value.onStartGame && !client.value.onObstacleReceived
      && client.value.startCalls == 0 && client.value.delivered == [] && client.value.sent == []
  {
    var server;
    server, probes := Discover(replies);
    match server {
      case None =>
        client := None;
      case Some(address) =>
        var c := new GameClient(address);
        client := Some(c);
    }
  }
}

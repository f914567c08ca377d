/**
 * The receive side of the client as a state machine over values: what one
 * datagram does to the session (`procesar`), what a run of datagrams does
 * (the receive loop), and how many `JOIN` requests the join-retry loop sends
 * while datagrams arrive between its attempts.
 */
module SessionState {
  import opened Wrappers
  import opened Numbers
  import opened Text
  import opened Protocol

  /** The client's public fields; `myId == 0` means no id has been assigned yet. */
  datatype Session = Session(
    myId: Int32,
    playerCount: Int32,
    ready: bool,
    startGame: bool,
    otherPlayer: Option<PlayerState>)

  /** The fields as a fresh client has them. */
  const Unjoined := Session(0, 0, false, false, None)

  /**
   * What `procesar` does besides changing fields: nothing, throw
   * NumberFormatException (which the receive loop swallows), call the start
   * callback, or call the obstacle callback with a parsed obstacle.
   */
  datatype Effect = Quiet | NumberFault | StartSignal | ObstacleSignal(obstacle: ObstacleState)

  datatype Step = Step(session: Session, effect: Effect)

  /** How many of the session's fields differ between `s` and `t`. */
  function FieldsChanged(s: Session, t: Session): nat
  {
    (if s.myId != t.myId then 1 else 0) + (if s.playerCount != t.playerCount then 1 else 0) +
    (if s.ready != t.ready then 1 else 0) + (if s.startGame != t.startGame then 1 else 0) +
    (if s.otherPlayer != t.otherPlayer then 1 else 0)
  }

  /**
   * `procesar(msg)`. The tests run in the source's order: `ASSIGN;`,
   * `COUNT;`, exactly `START`, `STATE;`, `OBST;`; anything else is ignored.
   */
  function Process(s: Session, msg: string): Step
  {
    if StartsWith(msg, "ASSIGN;") then
      match ReadInt(msg, "id")
      case Absent => Step(s, Quiet)
      case Malformed => Step(s, NumberFault)
      case Present(id) => Step(s.(myId := id), Quiet)
    else if StartsWith(msg, "COUNT;") then
      match ReadInt(msg, "players")
      case Absent => Step(s, Quiet)
      case Malformed => Step(s, NumberFault)
      case Present(c) => Step(s.(playerCount := c), Quiet)
    else if msg == "START" then
      Step(s.(startGame := true), StartSignal)
    else if StartsWith(msg, "STATE;") then
      match ParsePlayerState(msg)
      case None => Step(s, Quiet)
      case Some(ps) => Step(s.(otherPlayer := Some(ps)), Quiet)
    else if StartsWith(msg, "OBST;") then
      match ParseObstacle(msg)
      case None => Step(s, Quiet)
      case Some(o) => Step(s, ObstacleSignal(o))
    else
      Step(s, Quiet)
  }

  /**
   * Each message changes at most one session field, never `ready`, and a
   * message that throws or fires the obstacle callback changes none.
   */
  lemma ProcessFrame(s: Session, msg: string)
    ensures FieldsChanged(s, Process(s, msg).session) <= 1
    ensures Process(s, msg).session.ready == s.ready
    ensures Process(s, msg).effect.NumberFault? || Process(s, msg).effect.ObstacleSignal? ==>
      Process(s, msg).session == s
  {
  }

  /** One datagram as the receive loop handles it: trimmed, then processed. */
  function Receive(s: Session, datagram: string): Step
  {
    Process(s, Trim(datagram))
  }

  /** `ASSIGN;` with a readable id sets `myId` and nothing else. */
  lemma AssignSetsOnlyId(s: Session, msg: string)
    requires StartsWith(msg, "ASSIGN;") && ReadInt(msg, "id").Present?
    ensures Process(s, msg) == Step(s.(myId := ReadInt(msg, "id").value), Quiet)
  {
  }

  /** `COUNT;` with a readable count sets `playerCount` and nothing else. */
  lemma CountSetsOnlyPlayers(s: Session, msg: string)
    requires StartsWith(msg, "COUNT;") && ReadInt(msg, "players").Present?
    ensures Process(s, msg) == Step(s.(playerCount := ReadInt(msg, "players").value), Quiet)
  {
    assert msg[0] == 'C';
  }

  /** `myId` changes only through an `ASSIGN;` message whose id reads. */
  lemma IdOnlyFromAssign(s: Session, msg: string)
    requires Process(s, msg).session.myId != s.myId
    ensures StartsWith(msg, "ASSIGN;") && ReadInt(msg, "id") == Present(Process(s, msg).session.myId)
  {
  }

  /** `playerCount` changes only through a `COUNT;` message (not also `ASSIGN;`) whose count reads. */
  lemma PlayersOnlyFromCount(s: Session, msg: string)
    requires Process(s, msg).session.playerCount != s.playerCount
    ensures !StartsWith(msg, "ASSIGN;") && StartsWith(msg, "COUNT;")
    ensures ReadInt(msg, "players") == Present(Process(s, msg).session.playerCount)
  {
  }

  /** An `ASSIGN;` without `id=`, or a `COUNT;` without `players=`, changes nothing and throws nothing. */
  lemma MissingNumberIgnored(s: Session, msg: string)
    requires
      || (StartsWith(msg, "ASSIGN;") && ReadInt(msg, "id") == Absent)
      || (!StartsWith(msg, "ASSIGN;") && StartsWith(msg, "COUNT;") && ReadInt(msg, "players") == Absent)
    ensures Process(s, msg) == Step(s, Quiet)
  {
  }

  /**
   * `procesar` throws exactly on an `ASSIGN;` or `COUNT;` whose number is
   * present but does not parse, and then it has changed nothing.
   */
  lemma FaultOnlyOnBadNumber(s: Session, msg: string)
    ensures Process(s, msg).effect == NumberFault <==>
      (StartsWith(msg, "ASSIGN;") && ReadInt(msg, "id") == Malformed) ||
      (!StartsWith(msg, "ASSIGN;") && StartsWith(msg, "COUNT;") && ReadInt(msg, "players") == Malformed)
    ensures Process(s, msg).effect == NumberFault ==> Process(s, msg).session == s
  {
  }

  /** Only the exact text `START` raises the flag and calls the start callback. */
  lemma StartOnlyOnExactStart(s: Session, msg: string)
    ensures Process(s, msg).effect == StartSignal <==> msg == "START"
    ensures msg == "START" ==> Process(s, msg).session == s.(startGame := true)
    ensures !Process(s, msg).effect.StartSignal? ==> Process(s, msg).session.startGame == s.startGame
  {
  }

  /** `otherPlayer` is only ever replaced by a whole parsed snapshot, with no callback. */
  lemma SnapshotOnlyFromState(s: Session, msg: string)
    requires Process(s, msg).session.otherPlayer != s.otherPlayer
    ensures StartsWith(msg, "STATE;") && Process(s, msg).session.otherPlayer == ParsePlayerState(msg)
    ensures Process(s, msg).effect == Quiet
  {
    assert StartsWith(msg, "STATE;");
    ProcessState(s, msg);
  }

  /** The obstacle callback fires only for an `OBST;` message that parses, and no field changes. */
  lemma ObstacleOnlyFromObst(s: Session, msg: string)
    requires Process(s, msg).effect.ObstacleSignal?
    ensures StartsWith(msg, "OBST;") && ParseObstacle(msg) == Some(Process(s, msg).effect.obstacle)
    ensures Process(s, msg).session == s
  {
    assert StartsWith(msg, "OBST;");
    ProcessObstacle(s, msg);
  }

  /** A message with none of the five command shapes changes nothing. */
  lemma OtherMessagesIgnored(s: Session, msg: string)
    requires !StartsWith(msg, "ASSIGN;") && !StartsWith(msg, "COUNT;") && msg != "START"
    requires !StartsWith(msg, "STATE;") && !StartsWith(msg, "OBST;")
    ensures Process(s, msg) == Step(s, Quiet)
  {
  }

  /** A message that starts with `STATE;` replaces `otherPlayer` exactly when it parses, with no callback. */
  lemma ProcessState(s: Session, msg: string)
    requires StartsWith(msg, "STATE;")
    ensures Process(s, msg) == match ParsePlayerState(msg) case None => Step(s, Quiet) case Some(ps) => Step(s.(otherPlayer := Some(ps)), Quiet)
  {
    assert msg[..6] == "STATE;";
    assert !StartsWith(msg, "ASSIGN;") && !StartsWith(msg, "COUNT;") && msg != "START" by {
      assert msg[0] == 'S' && msg[3] == 'T';
    }
  }

  /** A message that starts with `OBST;` fires the obstacle callback exactly when it parses. */
  lemma ProcessObstacle(s: Session, msg: string)
    requires StartsWith(msg, "OBST;")
    ensures Process(s, msg) == match ParseObstacle(msg) case None => Step(s, Quiet) case Some(o) => Step(s, ObstacleSignal(o))
  {
    assert msg[..5] == "OBST;";
    assert !StartsWith(msg, "ASSIGN;") && !StartsWith(msg, "COUNT;") && msg != "START" by {
      assert msg[0] == 'O';
    }
    assert !StartsWith(msg, "STATE;") by {
      assert msg[0] == 'O';
    }
  }

  /** `send`'s text starts with `STATE;` and has nothing to trim. */
  lemma StateWire(ps: PlayerState)
    ensures Trim(EncodeState(ps)) == EncodeState(ps) && StartsWith(EncodeState(ps), "STATE;")
  {
    var d := if ps.ducking then "1" else "0";
    var head := "STATE;id=" + IntToString(ps.playerId) + ";x=" + IntToString(ps.x) + ";y=" + IntToString(ps.y) +
      ";duck=";
    var msg := head + d;
    assert EncodeState(ps) == msg;
    assert msg[|msg| - 1] == d[0];
    assert msg[..6] == "STATE;" by {
      assert head[..6] == "STATE;";
    }
    TrimKeeps(msg);
  }

  /** The server's obstacle text starts with `OBST;` and has nothing to trim. */
  lemma ObstacleWire(o: ObstacleState)
    ensures Trim(EncodeObstacle(o)) == EncodeObstacle(o) && StartsWith(EncodeObstacle(o), "OBST;")
  {
    var f := IntToString(o.kind);
    var head := "OBST;x=" + IntToString(o.x) + ";y=" + IntToString(o.y) + ";w=" + IntToString(o.width) +
      ";h=" + IntToString(o.height) + ";t=";
    var msg := head + f;
    assert EncodeObstacle(o) == msg;
    IntToStringChars(o.kind);
    assert msg[|msg| - 1] == f[|f| - 1] by {
      assert f[|f| - 1] in f;
    }
    assert msg[..5] == "OBST;" by {
      assert head[..5] == "OBST;";
    }
    TrimKeeps(msg);
  }

  /** The snapshot a peer sends with `send` arrives whole as `otherPlayer`. */
  lemma PeerStateArrives(s: Session, ps: PlayerState)
    ensures Receive(s, EncodeState(ps)) == Step(s.(otherPlayer := Some(ps)), Quiet)
  {
    StateWire(ps);
    StateRoundTrip(ps);
    ProcessState(s, EncodeState(ps));
  }

  /** An obstacle the server sends reaches the obstacle callback unchanged, and no field changes. */
  lemma ObstacleArrives(s: Session, o: ObstacleState)
    ensures Receive(s, EncodeObstacle(o)) == Step(s, ObstacleSignal(o))
  {
    ObstacleWire(o);
    ObstacleRoundTrip(o);
    ProcessObstacle(s, EncodeObstacle(o));
  }

  /** What a run of datagrams leaves behind: the session and the callbacks it called. */
  datatype Trace = Trace(session: Session, starts: nat, obstacles: seq<ObstacleState>)

  /** Adds one step's effect to a trace. */
  function Record(t: Trace, st: Step): Trace
  {
    Trace(st.session,
          t.starts + (if st.effect.StartSignal? then 1 else 0),
          t.obstacles + (if st.effect.ObstacleSignal? then [st.effect.obstacle] else []))
  }

  /** The receive loop over a finite run of datagrams, in arrival order. */
  function ReceiveAll(s: Session, datagrams: seq<string>): Trace
    decreases |datagrams|
  {
    if datagrams == [] then Trace(s, 0, [])
    else
      var t := ReceiveAll(s, datagrams[..|datagrams| - 1]);
      Record(t, Receive(t.session, datagrams[|datagrams| - 1]))
  }

  /** The receive loop never writes `ready`, and calls each callback at most once per datagram. */
  lemma {:induction false} ReceiveAllBounds(s: Session, datagrams: seq<string>)
    ensures ReceiveAll(s, datagrams).session.ready == s.ready
    ensures ReceiveAll(s, datagrams).starts + |ReceiveAll(s, datagrams).obstacles| <= |datagrams|
  {
    if datagrams != [] {
      var init := datagrams[..|datagrams| - 1];
      ReceiveAllBounds(s, init);
      ProcessFrame(ReceiveAll(s, init).session, Trim(datagrams[|datagrams| - 1]));
    }
  }

  /** Two traces one after the other. */
  function Then(t: Trace, u: Trace): Trace
  {
    Trace(u.session, t.starts + u.starts, t.obstacles + u.obstacles)
  }

  /**
   * The join-retry loop sees `rounds[k]` arrive while it sleeps after its
   * `k`-th JOIN; this is the trace after the first `k` rounds.
   */
  function RoundsTrace(s: Session, rounds: seq<seq<string>>, k: nat): Trace
    requires k <= |rounds|
    decreases k
  {
    if k == 0 then Trace(s, 0, [])
    else
      var t := RoundsTrace(s, rounds, k - 1);
      Then(t, ReceiveAll(t.session, rounds[k - 1]))
  }

  /** No id has been assigned after the first `k` rounds. */
  predicate Unassigned(s: Session, rounds: seq<seq<string>>, k: nat)
    requires k <= |rounds|
  {
    RoundsTrace(s, rounds, k).session.myId == 0
  }

  /**
   * How many JOINs the loop `while (myId == 0) { send JOIN; sleep }` sends
   * from round `k` on: it sends one per round exactly while the id is still
   * 0, and stops at the first round that finds an id, or when the rounds run out.
   */
  function JoinsFrom(s: Session, rounds: seq<seq<string>>, k: nat): (n: nat)
    requires k <= |rounds|
    decreases |rounds| - k
    ensures k <= n <= |rounds|
    ensures forall j :: k <= j < n ==> Unassigned(s, rounds, j)
    ensures n == |rounds| || !Unassigned(s, rounds, n)
  {
    if k == |rounds| || !Unassigned(s, rounds, k) then k
    else JoinsFrom(s, rounds, k + 1)
  }

  /**
   * The count of JOINs is pinned down by the loop's rule alone: any `n` with
   * the id still 0 before every one of its rounds, and found after round `n`
   * (or no rounds left), is the count.
   */
  lemma JoinsExactly(s: Session, rounds: seq<seq<string>>, n: nat)
    requires n <= |rounds|
    requires forall j :: 0 <= j < n ==> Unassigned(s, rounds, j)
    requires n == |rounds| || !Unassigned(s, rounds, n)
    ensures JoinsFrom(s, rounds, 0) == n
  {
    var m := JoinsFrom(s, rounds, 0);
    var first := if m < n then m else n;
    var unassigned := Unassigned(s, rounds, first);
    assert m != n ==> unassigned;
  }

  /** Once an id is assigned, the join-retry loop sends nothing. */
  lemma NoJoinOnceAssigned(s: Session, rounds: seq<seq<string>>)
    requires s.myId != 0
    ensures JoinsFrom(s, rounds, 0) == 0
  {
  }
}

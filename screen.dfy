/**
 * `PantallaMultijugador`: the match state the render thread keeps, and the
 * frame update that reads the client's session fields. Drawing, sounds,
 * timers and the float physics are outside the model.
 */
module Screen {
  import opened Wrappers
  import opened Numbers
  import opened Protocol
  import opened Client
  import opened World

  class MultiplayerScreen {
    const client: GameClient

    var inLobby: bool
    var myId: Int32
    var score: int
    var record: int
    var gameOver: bool
    var winner: int
    var j1: Dino
    var j2: Dino
    var hitbox1: Rect
    var hitbox2: Rect
    var obstacles: seq<Obstacle>

    /**
     * Between frames: the winner is 0 exactly while the match is not over,
     * the record covers a finished match's score, the lobby has no score,
     * and the hitboxes follow the players.
     */
    ghost predicate Valid()
      reads this
    {
      && 0 <= winner <= 2
      && (gameOver <==> winner != 0)
      && 0 <= score
      && (gameOver ==> score <= record)
      && (inLobby ==> !gameOver && score == 0)
      && hitbox1 == HitboxOf(j1) && hitbox2 == HitboxOf(j2)
    }

    /** Everything the screen keeps except its id and its client. */
    ghost function MatchState(): (bool, int, int, bool, int, Dino, Dino, Rect, Rect, seq<Obstacle>)
      reads this
    {
      (inLobby, score, record, gameOver, winner, j1, j2, hitbox1, hitbox2, obstacles)
    }

    /**
     * A new screen in the lobby with the stored record; it registers both
     * callbacks on the client.
     */
    constructor(client: GameClient, storedRecord: int)
      modifies client`onStartGame, client`onObstacleReceived
      ensures Valid()
      ensures this.client == client && client.onStartGame && client.onObstacleReceived
      ensures inLobby && myId == 0 && score == 0 && record == storedRecord && !gameOver
      ensures j1 == StartJ1 && j2 == StartJ2 && obstacles == []
    {
      this.client := client;
      inLobby, myId, score, record := true, 0, 0, storedRecord;
      gameOver, winner := false, 0;
      j1, j2 := StartJ1, StartJ2;
      hitbox1, hitbox2 := HitboxOf(StartJ1), HitboxOf(StartJ2);
      obstacles := [];
      client.onStartGame := true;
      client.onObstacleReceived := true;
    }

    /** `actualizarHitboxes`. */
    method UpdateHitboxes()
      modifies this`hitbox1, this`hitbox2
      ensures hitbox1 == HitboxOf(j1) && hitbox2 == HitboxOf(j2)
    {
      hitbox1 := HitboxOf(j1);
      hitbox2 := HitboxOf(j2);
    }

    /** `iniciarPartidaDesdeLobby`: a fresh match, whatever came before. */
    method StartFromLobby()
      modifies this`inLobby, this`gameOver, this`winner, this`score, this`j1, this`j2, this`obstacles, this`hitbox1, this`hitbox2
      ensures Valid()
      ensures !inLobby && !gameOver && winner == 0 && score == 0
      ensures j1 == StartJ1 && j2 == StartJ2 && obstacles == []
    {
      inLobby := false;
      gameOver := false;
      winner := 0;
      score := 0;
      j1 := StartJ1;
      j2 := StartJ2;
      obstacles := [];
      UpdateHitboxes();
    }

    /** The obstacle callback's runnable: the obstacle joins the list. */
    method OnObstacle(os: ObstacleState)
      modifies this`obstacles
      ensures obstacles == old(obstacles) + [FromNet(os)]
    {
      obstacles := obstacles + [FromNet(os)];
    }

    /** `terminarPartidaConGanador`: the match ends and the record keeps the higher of itself and the score. */
    method EndMatch(w: int)
      modifies this`gameOver, this`winner, this`record
      ensures gameOver && winner == w
      ensures record >= old(record) && record >= score
      ensures record == old(record) || record == score
    {
      gameOver := true;
      winner := w;
      if score > record {
        record := score;
      }
    }

    /** `enviarMiEstado`: my player's position and crouch go to the server. */
    method SendMyState()
      modifies client`sent
      ensures client.sent == old(client.sent) + [EncodeState(MyState(myId, j1, j2))]
    {
      var d := if myId == 1 then j1 else j2;
      client.Send(PlayerState(myId, d.x, d.y, d.crouched));
    }

    /** `aplicarEstadoRemoto`. */
    method ApplyRemoteState()
      modifies this`j1, this`j2
      ensures (j1, j2) == ApplyRemote(myId, client.otherPlayer, old(j1), old(j2))
    {
      var other := client.otherPlayer;
      if other.None? {
        return;
      }
      var ps := other.value;
      if ps.playerId == myId {
        return;
      }
      if myId == 1 && ps.playerId == 2 {
        j2 := j2.(x := ps.x, y := ps.y, crouched := ps.ducking);
      } else if myId == 2 && ps.playerId == 1 {
        j1 := j1.(x := ps.x, y := ps.y, crouched := ps.ducking);
      }
    }

    /**
     * `leerEntradaYFisicaLocal`: the input and physics step for my player
     * only (player 1 when `me1`, player 2 otherwise).
     */
    method LocalPhysics(me1: bool, crouchKey: bool, jumpKey: bool, air: Motion)
      modifies this`j1, this`j2
      ensures me1 ==> j1 == LocalStep(old(j1), crouchKey, jumpKey, air) && j2 == old(j2)
      ensures !me1 ==> j2 == LocalStep(old(j2), crouchKey, jumpKey, air) && j1 == old(j1)
    {
      var d := if me1 then j1 else j2;
      var crouched := crouchKey && d.onGround;
      var velY, onGround := d.velY, d.onGround;
      if jumpKey && d.onGround {
        onGround := false;
      }
      var y := air.y;
      velY := air.velY;
      if y <= Ground {
        y, velY, onGround := Ground, 0, true;
      }
      var moved := Dino(d.x, y, crouched, velY, onGround);
      if me1 {
        j1 := moved;
      } else {
        j2 := moved;
      }
    }

    /**
     * The obstacle loop of `actualizar`, from the last index down: each
     * obstacle moves by `dx`; one off the screen is removed and scores; the
     * first one that hits a player ends the match.
     */
    method SweepObstacles(dx: int)
      requires !gameOver
      modifies this`obstacles, this`score, this`gameOver, this`winner, this`record
      ensures var r := SweepDown(old(obstacles), |old(obstacles)|, dx, hitbox1, hitbox2);
        && obstacles == r.obstacles
        && score == old(score) + r.removed
        && winner == (if r.winner == 0 then old(winner) else r.winner)
        && gameOver == (r.winner != 0)
        && (r.winner == 0 ==> record == old(record))
        && (r.winner != 0 ==> record >= old(record) && record >= score && (record == old(record) || record == score))
    {
      ghost var total := SweepDown(obstacles, |obstacles|, dx, hitbox1, hitbox2);
      var i: int := |obstacles| - 1;
      while i >= 0
        invariant -1 <= i < |obstacles|
        invariant !gameOver && record == old(record) && winner == old(winner) && score >= old(score)
        invariant var r := SweepDown(obstacles, i + 1, dx, hitbox1, hitbox2);
          total == Sweep(r.obstacles, score - old(score) + r.removed, r.winner)
      {
        var o := Advance(obstacles[i], dx);
        obstacles := obstacles[i := o];
        if o.x + o.width < 0 {
          obstacles := obstacles[..i] + obstacles[i + 1..];
          score := score + 1;
          i := i - 1;
          continue;
        }
        if Overlaps(Bounds(o), hitbox1) {
          EndMatch(2);
          break;
        }
        if Overlaps(Bounds(o), hitbox2) {
          EndMatch(1);
          break;
        }
        i := i - 1;
      }
    }

    /**
     * `actualizar` for one frame. In the lobby it only consumes the start
     * flag or sends READY; after the match it only watches for M; without
     * an id of 1 or 2 it does nothing; otherwise my player moves, my state
     * is sent, the peer's snapshot is applied, and the obstacles are swept
     * against the new hitboxes. `toMenu` is the switch back to the menu.
     */
    method Update(enter: bool, mPressed: bool, crouchKey: bool, jumpKey: bool, air: Motion, dx: int)
      returns (toMenu: bool)
      requires Valid()
      modifies this, client`startGame, client`ready, client`sent
      ensures Valid() && myId == old(myId)
      ensures old(inLobby) && old(client.startGame) ==>
        && !toMenu && !client.startGame
        && !inLobby && !gameOver && winner == 0 && score == 0 && record == old(record)
        && j1 == StartJ1 && j2 == StartJ2 && obstacles == []
        && client.ready == old(client.ready) && client.sent == old(client.sent)
      ensures old(inLobby) && !old(client.startGame) ==>
        && !toMenu && unchanged(this) && !client.startGame
        && client.ready == (old(client.ready) || enter)
        && client.sent == old(client.sent) + (if !old(client.ready) && enter then ["READY"] else [])
      ensures !old(inLobby) && old(gameOver) ==>
        toMenu == mPressed && unchanged(this) && unchanged(client)
      ensures !old(inLobby) && !old(gameOver) && myId != 1 && myId != 2 ==>
        !toMenu && unchanged(this) && unchanged(client)
      ensures !old(inLobby) && !old(gameOver) && (myId == 1 || myId == 2) ==>
        var me1 := if myId == 1 then LocalStep(old(j1), crouchKey, jumpKey, air) else old(j1);
        var me2 := if myId == 2 then LocalStep(old(j2), crouchKey, jumpKey, air) else old(j2);
        var r := SweepDown(old(obstacles), |old(obstacles)|, dx, HitboxOf(j1), HitboxOf(j2));
        && !toMenu && !inLobby
        && client.startGame == old(client.startGame) && client.ready == old(client.ready)
        && client.sent == old(client.sent) + [EncodeState(MyState(myId, me1, me2))]
        && (j1, j2) == ApplyRemote(myId, client.otherPlayer, me1, me2)
        && obstacles == r.obstacles && score == old(score) + r.removed
        && winner == r.winner && gameOver == (r.winner != 0)
        && record == (if r.winner != 0 && score > old(record) then score else old(record))
    {
      toMenu := false;
      if inLobby {
        Lobby(enter);
        return;
      }
      if gameOver {
        toMenu := mPressed;
        return;
      }
      if myId == 1 || myId == 2 {
        Play(crouchKey, jumpKey, air, dx);
      }
    }

    /** The lobby branch of `actualizar`. */
    method Lobby(enter: bool)
      requires Valid() && inLobby
      modifies this, client`startGame, client`ready, client`sent
      ensures Valid() && myId == old(myId)
      ensures old(client.startGame) ==>
        && !client.startGame
        && !inLobby && !gameOver && winner == 0 && score == 0 && record == old(record)
        && j1 == StartJ1 && j2 == StartJ2 && obstacles == []
        && client.ready == old(client.ready) && client.sent == old(client.sent)
      ensures !old(client.startGame) ==>
        && unchanged(this) && !client.startGame
        && client.ready == (old(client.ready) || enter)
        && client.sent == old(client.sent) + (if !old(client.ready) && enter then ["READY"] else [])
    {
      if client.startGame {
        client.startGame := false;
        StartFromLobby();
        return;
      }
      if !client.ready && enter {
        client.SendReady();
      }
    }

    /** The simulation branch of `actualizar`, once my id is 1 or 2 and the match runs. */
    method Play(crouchKey: bool, jumpKey: bool, air: Motion, dx: int)
      requires Valid() && !inLobby && !gameOver && (myId == 1 || myId == 2)
      modifies this, client`sent
      ensures Valid() && myId == old(myId)
      ensures
        var me1 := if myId == 1 then LocalStep(old(j1), crouchKey, jumpKey, air) else old(j1);
        var me2 := if myId == 2 then LocalStep(old(j2), crouchKey, jumpKey, air) else old(j2);
        var r := SweepDown(old(obstacles), |old(obstacles)|, dx, HitboxOf(j1), HitboxOf(j2));
        && !inLobby
        && client.sent == old(client.sent) + [EncodeState(MyState(myId, me1, me2))]
        && (j1, j2) == ApplyRemote(myId, client.otherPlayer, me1, me2)
        && obstacles == r.obstacles && score == old(score) + r.removed
        && winner == r.winner && gameOver == (r.winner != 0)
        && record == (if r.winner != 0 && score > old(record) then score else old(record))
    {
      LocalPhysics(myId == 1, crouchKey, jumpKey, air);
      SendMyState();
      ApplyRemoteState();
      UpdateHitboxes();
      SweepCounts(obstacles, |obstacles|, dx, hitbox1, hitbox2);
      SweepObstacles(dx);
    }

    /** `render` without the drawing: the id the client was assigned is copied before the update. */
    method Render(enter: bool, mPressed: bool, crouchKey: bool, jumpKey: bool, air: Motion, dx: int)
      returns (toMenu: bool)
      requires Valid()
      modifies this, client`startGame, client`ready, client`sent
      ensures Valid() && myId == client.myId
      ensures old(inLobby) && old(client.startGame) ==>
        && !toMenu && !client.startGame
        && !inLobby && !gameOver && winner == 0 && score == 0 && record == old(record)
        && j1 == StartJ1 && j2 == StartJ2 && obstacles == []
        && client.ready == old(client.ready) && client.sent == old(client.sent)
      ensures old(inLobby) && !old(client.startGame) ==>
        && !toMenu && MatchState() == old(MatchState()) && !client.startGame
        && client.ready == (old(client.ready) || enter)
        && client.sent == old(client.sent) + (if !old(client.ready) && enter then ["READY"] else [])
      ensures !old(inLobby) && old(gameOver) ==>
        toMenu == mPressed && MatchState() == old(MatchState()) && unchanged(client)
      ensures !old(inLobby) && !old(gameOver) && myId != 1 && myId != 2 ==>
        !toMenu && MatchState() == old(MatchState()) && unchanged(client)
      ensures !old(inLobby) && !old(gameOver) && (myId == 1 || myId == 2) ==>
        var me1 := if myId == 1 then LocalStep(old(j1), crouchKey, jumpKey, air) else old(j1);
        var me2 := if myId == 2 then LocalStep(old(j2), crouchKey, jumpKey, air) else old(j2);
        var r := SweepDown(old(obstacles), |old(obstacles)|, dx, HitboxOf(j1), HitboxOf(j2));
        && !toMenu && !inLobby
        && client.startGame == old(client.startGame) && client.ready == old(client.ready)
        && client.sent == old(client.sent) + [EncodeState(MyState(myId, me1, me2))]
        && (j1, j2) == ApplyRemote(myId, client.otherPlayer, me1, me2)
        && obstacles == r.obstacles && score == old(score) + r.removed
        && winner == r.winner && gameOver == (r.winner != 0)
        && record == (if r.winner != 0 && score > old(record) then score else old(record))
    {
      myId := client.myId;
      toMenu := Update(enter, mPressed, crouchKey, jumpKey, air, dx);
    }
  }
}

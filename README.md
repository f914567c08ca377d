# DinoChrome multiplayer client — a Dafny model

This project models the client half of the two-player DinoChrome game. The
client talks to the game server over UDP with short text datagrams of the form
`COMMAND;key=value;key=value`.

- **Numbers** (`numbers.dfy`): Java's `Integer.toString` and `Integer.parseInt`. `Int32` is Java's `int`.
- **Text** (`text.dfy`): `String.indexOf`, `startsWith` and `trim`.
- **Protocol** (`protocol.dfy`): the codec of `GameClient`.
  - `leerValor` finds the first `key=` and reads up to the next `;` or the end.
  - `leerEntero` and `leerFloat` parse that text.
  - `parsearPlayerState` and `parsearObstaculo` build a whole record or nothing.
  - `send` prints a `STATE` message. The `OBST` text the server prints is given as a reference encoder.
- **SessionState** (`session.dfy`): the receive side as a state machine over values.
  - `procesar` maps a message to the new session fields plus one effect. The effect is nothing, a swallowed `NumberFormatException`, the start callback or the obstacle callback.
  - The receive loop folds `procesar` over a run of trimmed datagrams.
  - The join-retry loop is counted in rounds.
- **Discovery** (`discovery.dfy`): `descubrirServidor`. It sends up to eight broadcast probes over an abstract sequence of replies.
- **Client** (`client.dfy`): the class `GameClient`.
  - Its fields are the session fields, the callback registrations, logs of the callback calls, and the log of sent datagrams.
  - `Procesar`, the receive loop and the join-retry loop are methods, each proved against `SessionState`.
  - `Connect` is the constructor's discovery step.
- **World** (`world.dfy`): the discrete rules of a match on values.
  - Hitboxes, `Rectangle.overlaps`, the off-screen test and the local input step.
  - Which player a remote snapshot overwrites.
  - One sweep of the obstacle loop, as the function `SweepDown`, with lemmas about removal, score and winner.
- **Screen** (`screen.dfy`): the class `MultiplayerScreen` (`PantallaMultijugador`).
  - Its fields are the lobby flag, `miId`, score, record, game-over flag, winner, both players, hitboxes and obstacle list.
  - Its methods are the frame update `actualizar` and its branches, the match reset, the in-place obstacle sweep loop, the end of a match and the network callbacks.

`PlayerState.java` and `EstadoObstaculo.java` are not part of this model. Their fields are read off `GameClient.java`: `playerId`, `x`, `y` and `ducking`; then `x`, `y`, `width`, `height` and `type`.

## Model

| member | source | states |
|---|---|---|
| Numbers.IntToString | core/src/main/java/com/dinochrome/game/net/GameClient.java:113-117 | how string concatenation prints an `int` in `send`; no ensures of its own; stated by IntToStringChars, DigitsRoundTrip and the round trips ParseSignedRoundTrip and ParseIntRoundTrip |
| Numbers.ParseSigned | core/src/main/java/com/dinochrome/game/net/GameClient.java:244-248 | the number reader for the position fields; its ensures only say an accepted text is non-empty; stated by ParseSignedSyntax, ParseSignedValue and ParseSignedRoundTrip |
| Numbers.ParseInt | core/src/main/java/com/dinochrome/game/net/GameClient.java:238-242 | a value is given only when the signed reader reads that same number, and always when that number fits in 32 bits: out-of-range text fails |
| Numbers.ParseSignedSyntax | core/src/main/java/com/dinochrome/game/net/GameClient.java:238-248 | the number readers accept exactly a digit or a sign followed by more text, with only digits after the first character |
| Numbers.ParseSignedValue | core/src/main/java/com/dinochrome/game/net/GameClient.java:238-248 | an optional sign and a run of digits read as the digits' decimal value, negated by a minus sign |
| Numbers.ParseIntRefuses | core/src/main/java/com/dinochrome/game/net/GameClient.java:238-242 | `1.5`, `1a`, the empty text and a bare `-` make `Integer.parseInt` fail |
| Numbers.ParseIntRefusesOverflow | core/src/main/java/com/dinochrome/game/net/GameClient.java:238-242 | `2147483648`, one past the largest `int`, makes `Integer.parseInt` fail |
| Numbers.DigitsRoundTrip | core/src/main/java/com/dinochrome/game/net/GameClient.java:113-117 | the digits printed for a natural number are non-empty, all decimal digits, and read back as that number |
| Numbers.IntToStringChars | core/src/main/java/com/dinochrome/game/net/GameClient.java:113-117 | a printed `int` is non-empty and holds only digits and `-`, so never a `;` |
| Numbers.ParseSignedRoundTrip | core/src/main/java/com/dinochrome/game/net/GameClient.java:244-248 | the number reader used for the position fields reads back every printed integer |
| Numbers.ParseIntRoundTrip | core/src/main/java/com/dinochrome/game/net/GameClient.java:238-242 | `Integer.parseInt` reads back every printed `int` |
| Text.StartsWith | core/src/main/java/com/dinochrome/game/net/GameClient.java:151-183 | `String.startsWith`, the test of each branch of `procesar`; no ensures of its own; stated through ProcessFrame, the per-branch lemmas and StateWire/ObstacleWire |
| Text.IndexOf | core/src/main/java/com/dinochrome/game/net/GameClient.java:252-256 | a position `indexOf` returns is an occurrence at or after the start |
| Text.IndexOfSpec | core/src/main/java/com/dinochrome/game/net/GameClient.java:252-256 | `indexOf` returns the first occurrence at or after the start, and returns nothing only when no occurrence exists |
| Text.IndexOfFirst | core/src/main/java/com/dinochrome/game/net/GameClient.java:252-256 | conversely, the first occurrence at or after the start is the position `indexOf` returns |
| Text.Trim | core/src/main/java/com/dinochrome/game/net/GameClient.java:136-141 | `trim()` returns text no longer than its input that is empty or starts and ends with a non-blank character |
| Text.TrimRemovesOnlyBlanks | core/src/main/java/com/dinochrome/game/net/GameClient.java:136-141 | `trim()` keeps one contiguous piece of its input, and everything it cut from either end is blank (at or below U+0020) |
| Text.TrimKeeps | core/src/main/java/com/dinochrome/game/net/GameClient.java:84-89 | text that starts and ends with a non-blank character is left unchanged by `trim()` |
| Protocol.ReadValue | core/src/main/java/com/dinochrome/game/net/GameClient.java:250-260 | `leerValor`; no ensures of its own; stated by ReadValueSpec and ReadValueAt, and used by FieldIn |
| Protocol.ReadInt | core/src/main/java/com/dinochrome/game/net/GameClient.java:238-242 | `leerEntero`: absent key, a value, or the NumberFormatException as a fault; no ensures of its own; stated by ParseInt, ParseIntRoundTrip and FaultOnlyOnBadNumber |
| Protocol.ReadNumber | core/src/main/java/com/dinochrome/game/net/GameClient.java:244-248 | `leerFloat` on the integer model; no ensures of its own; stated by ParseSignedSyntax, ParseSignedRoundTrip and the field lemmas StateX, StateY, ObstacleX to ObstacleH |
| Protocol.ParsePlayerState | core/src/main/java/com/dinochrome/game/net/GameClient.java:188-208 | `parsearPlayerState`; no ensures of its own; stated by PlayerStateWhole and StateRoundTrip |
| Protocol.ParseObstacle | core/src/main/java/com/dinochrome/game/net/GameClient.java:210-233 | `parsearObstaculo`; no ensures of its own; stated by ObstacleWhole and ObstacleRoundTrip |
| Protocol.EncodeState | core/src/main/java/com/dinochrome/game/net/GameClient.java:113-117 | the text `send` builds; no ensures of its own; stated by StateId, StateX, StateY, StateDuck and StateRoundTrip, and sent by GameClient.Send |
| Protocol.ReadValueSpec | core/src/main/java/com/dinochrome/game/net/GameClient.java:250-260 | `leerValor` gives nothing exactly when `key=` occurs nowhere. Otherwise its text starts right after the first `key=`, holds no `;`, and is followed by `;` or the end of the message |
| Protocol.ReadValueAt | core/src/main/java/com/dinochrome/game/net/GameClient.java:250-260 | conversely, the value text after the first `key=` is what `leerValor` returns |
| Protocol.FieldIn | core/src/main/java/com/dinochrome/game/net/GameClient.java:250-260 | a `key=v` field after a prefix where `key=` cannot match earlier is read back as `v` |
| Protocol.PlayerStateWhole | core/src/main/java/com/dinochrome/game/net/GameClient.java:188-207 | `parsearPlayerState` gives a snapshot exactly when `id`, `x`, `y` and `duck` are all present and parse. The snapshot copies them, and `ducking` holds exactly when `duck == 1` |
| Protocol.ObstacleWhole | core/src/main/java/com/dinochrome/game/net/GameClient.java:210-233 | `parsearObstaculo` gives an obstacle exactly when `x`, `y`, `w`, `h` and `t` are all present and parse, copied one to one |
| Protocol.StateId | core/src/main/java/com/dinochrome/game/net/GameClient.java:113-119 | the `id` field of the text `send` prints reads back as the printed id |
| Protocol.StateX | core/src/main/java/com/dinochrome/game/net/GameClient.java:113-119 | the `x` field of the text `send` prints reads back as the printed `x` |
| Protocol.StateY | core/src/main/java/com/dinochrome/game/net/GameClient.java:113-119 | the `y` field of the text `send` prints reads back as the printed `y` |
| Protocol.StateDuck | core/src/main/java/com/dinochrome/game/net/GameClient.java:113-119 | the `duck` field of the text `send` prints reads back as `1` or `0` |
| Protocol.StateRoundTrip | core/src/main/java/com/dinochrome/game/net/GameClient.java:188-203 | `parsearPlayerState` of the text `send` prints is the snapshot that was sent |
| Protocol.ObstacleX | core/src/main/java/com/dinochrome/game/net/GameClient.java:214 | the `x` field of an `OBST` text reads back as the obstacle's `x` |
| Protocol.ObstacleY | core/src/main/java/com/dinochrome/game/net/GameClient.java:215 | the `y` field of an `OBST` text reads back as the obstacle's `y` |
| Protocol.ObstacleW | core/src/main/java/com/dinochrome/game/net/GameClient.java:216 | the `w` field of an `OBST` text reads back as the obstacle's width |
| Protocol.ObstacleH | core/src/main/java/com/dinochrome/game/net/GameClient.java:217 | the `h` field of an `OBST` text reads back as the obstacle's height |
| Protocol.ObstacleT | core/src/main/java/com/dinochrome/game/net/GameClient.java:218 | the `t` field of an `OBST` text reads back as the obstacle's type |
| Protocol.ObstacleRoundTrip | core/src/main/java/com/dinochrome/game/net/GameClient.java:210-233 | `parsearObstaculo` of an `OBST` text is the obstacle it was printed from |
| SessionState.Process | core/src/main/java/com/dinochrome/game/net/GameClient.java:151-183 | `procesar` on the session fields; no ensures of its own; stated by ProcessFrame, the *Only* lemmas (including PlayersOnlyFromCount), MissingNumberIgnored, OtherMessagesIgnored, ProcessState and ProcessObstacle, and implemented by GameClient.Procesar |
| SessionState.Receive | core/src/main/java/com/dinochrome/game/net/GameClient.java:128-149 | one datagram of the receive loop: trim, then procesar; no ensures of its own; stated by StateWire, ObstacleWire, PeerStateArrives and ObstacleArrives |
| SessionState.ReceiveAll | core/src/main/java/com/dinochrome/game/net/GameClient.java:128-149 | the receive loop over a run of datagrams, faults swallowed; no ensures of its own; stated by ReceiveAllBounds, and implemented by GameClient.ReceiveLoop |
| SessionState.ProcessFrame | core/src/main/java/com/dinochrome/game/net/GameClient.java:151-183 | one message changes at most one session field and never `ready`. A message that throws, or that fires the obstacle callback, changes no field |
| SessionState.AssignSetsOnlyId | core/src/main/java/com/dinochrome/game/net/GameClient.java:153-157 | `ASSIGN;` with a readable id sets `myId` to it, changes nothing else and fires nothing |
| SessionState.CountSetsOnlyPlayers | core/src/main/java/com/dinochrome/game/net/GameClient.java:159-163 | `COUNT;` with a readable count sets `playerCount` to it and nothing else |
| SessionState.IdOnlyFromAssign | core/src/main/java/com/dinochrome/game/net/GameClient.java:153-157 | `myId` changes only on an `ASSIGN;` message, to the id it carries |
| SessionState.PlayersOnlyFromCount | core/src/main/java/com/dinochrome/game/net/GameClient.java:153-163 | `playerCount` changes only through a `COUNT;` message that is not also `ASSIGN;`, to the count it carries |
| SessionState.MissingNumberIgnored | core/src/main/java/com/dinochrome/game/net/GameClient.java:153-163 | an `ASSIGN;` without an id, or a `COUNT;` without a count, changes no field and throws nothing, since `leerEntero` gives null |
| SessionState.FaultOnlyOnBadNumber | core/src/main/java/com/dinochrome/game/net/GameClient.java:238-242 | `procesar` throws exactly on an `ASSIGN;` or `COUNT;` message whose number is present but does not parse, and then no field has changed |
| SessionState.StartOnlyOnExactStart | core/src/main/java/com/dinochrome/game/net/GameClient.java:165-169 | the start flag is raised and the start callback fired exactly for the text `START`; no other message touches `startGame` |
| SessionState.SnapshotOnlyFromState | core/src/main/java/com/dinochrome/game/net/GameClient.java:171-175 | `otherPlayer` changes only on a `STATE;` message, to its whole parsed snapshot, with no callback |
| SessionState.ObstacleOnlyFromObst | core/src/main/java/com/dinochrome/game/net/GameClient.java:177-182 | the obstacle callback fires only on an `OBST;` message, with the parsed obstacle, and no field changes |
| SessionState.OtherMessagesIgnored | core/src/main/java/com/dinochrome/game/net/GameClient.java:151-183 | a message of none of the five shapes changes nothing and fires nothing |
| SessionState.ProcessState | core/src/main/java/com/dinochrome/game/net/GameClient.java:171-175 | a `STATE;` message replaces `otherPlayer` exactly when it parses, and otherwise changes nothing |
| SessionState.ProcessObstacle | core/src/main/java/com/dinochrome/game/net/GameClient.java:177-182 | an `OBST;` message fires the obstacle callback exactly when it parses, and otherwise does nothing |
| SessionState.StateWire | core/src/main/java/com/dinochrome/game/net/GameClient.java:113-119 | the text `send` prints starts with `STATE;` and is left unchanged by `trim()` |
| SessionState.ObstacleWire | core/src/main/java/com/dinochrome/game/net/GameClient.java:177-178 | an `OBST` text starts with `OBST;` and is left unchanged by `trim()` |
| SessionState.PeerStateArrives | core/src/main/java/com/dinochrome/game/net/GameClient.java:171-175 | the datagram a peer's `send` produces, once received, sets `otherPlayer` to exactly that snapshot and changes nothing else |
| SessionState.ObstacleArrives | core/src/main/java/com/dinochrome/game/net/GameClient.java:177-182 | a received `OBST` datagram hands exactly its obstacle to the callback and changes no field |
| SessionState.ReceiveAllBounds | core/src/main/java/com/dinochrome/game/net/GameClient.java:128-149 | the receive loop never writes `ready`, and it fires at most one callback per datagram |
| SessionState.JoinsFrom | core/src/main/java/com/dinochrome/game/net/GameClient.java:53-57 | the loop sends one JOIN per round while the id is still 0. It stops at the first round whose start finds an id, or when the rounds run out |
| SessionState.JoinsExactly | core/src/main/java/com/dinochrome/game/net/GameClient.java:53-57 | any count with the id 0 before each of its rounds, and found after the last one (or no rounds left), is the number of JOINs sent |
| SessionState.NoJoinOnceAssigned | core/src/main/java/com/dinochrome/game/net/GameClient.java:54 | with an id already assigned, the loop sends no JOIN |
| Discovery.Accepts | core/src/main/java/com/dinochrome/game/net/GameClient.java:84-91 | a reply is the server exactly when it is a datagram whose trimmed text equals `SERVIDOR_AQUI`; no ensures of its own; stated by FoundHasFirstAck, DiscoverFoundFirstAck and DiscoverTakesFirstAck, and by TrimKeeps for the constant itself |
| Discovery.DiscoverFrom | core/src/main/java/com/dinochrome/game/net/GameClient.java:78-98 | from attempt `i`, discovery sends at most `8 - i` probes |
| Discovery.FoundHasFirstAck | core/src/main/java/com/dinochrome/game/net/GameClient.java:78-93 | when a server is found, some attempt got the acknowledgement, and every attempt before it timed out or got another text |
| Discovery.DiscoverFoundFirstAck | core/src/main/java/com/dinochrome/game/net/GameClient.java:78-93 | a found server is the source of the first acknowledging reply, and the probe count stops at that reply |
| Discovery.DiscoverTakesFirstAck | core/src/main/java/com/dinochrome/game/net/GameClient.java:83-93 | conversely, an acknowledgement after only retries is the server discovery returns, found with one probe per attempt up to it |
| Discovery.DiscoverGivesUp | core/src/main/java/com/dinochrome/game/net/GameClient.java:78-102 | when every attempt times out or gets another text, all eight probes go out and no server is found |
| Discovery.Discover | core/src/main/java/com/dinochrome/game/net/GameClient.java:70-103 | the loop returns what `DiscoverFrom` specifies, with at most eight probes |
| Client.GameClient.constructor | core/src/main/java/com/dinochrome/game/net/GameClient.java:21-33 | a new client has every session field at rest, no callback registered, and nothing sent |
| Client.GameClient.SendReady | core/src/main/java/com/dinochrome/game/net/GameClient.java:108-111 | `ready` becomes true, and stays true on a second call; exactly one READY is sent |
| Client.GameClient.Send | core/src/main/java/com/dinochrome/game/net/GameClient.java:113-119 | exactly the `STATE` text of the snapshot is sent |
| Client.GameClient.Procesar | core/src/main/java/com/dinochrome/game/net/GameClient.java:151-183 | the fields become those `Process` gives. A fault is reported exactly when Java throws. Each callback runs once when its effect occurs and it is registered, and otherwise not at all |
| Client.GameClient.ReceiveLoop | core/src/main/java/com/dinochrome/game/net/GameClient.java:128-149 | after a run of datagrams, the fields and the callback logs are those of `ReceiveAll`, with faults swallowed |
| Client.GameClient.JoinRound | core/src/main/java/com/dinochrome/game/net/GameClient.java:54-56 | one JOIN is sent, then the round's datagrams are received |
| Client.GameClient.JoinRetry | core/src/main/java/com/dinochrome/game/net/GameClient.java:53-57 | the loop sends exactly `JoinsFrom` JOINs and leaves the client in the state after those rounds |
| Client.Connect | core/src/main/java/com/dinochrome/game/net/GameClient.java:35-45 | a client exists exactly when discovery finds a server, and it starts at rest with that server: unjoined, no callbacks registered, none called, nothing sent |
| World.FromNet | core/src/main/java/com/dinochrome/game/PantallaMultijugador.java:188-195 | a received obstacle of type 0 becomes a cactus and any other type a pterodactyl, with position and size copied |
| World.HitboxOf | core/src/main/java/com/dinochrome/game/PantallaMultijugador.java:423-429 | a hitbox sits at the player's position, 30 wide, 25 high when crouched and 40 otherwise |
| World.CrouchingShrinksHits | core/src/main/java/com/dinochrome/game/PantallaMultijugador.java:118-120 | whatever overlaps a crouched player's hitbox also overlaps the standing one |
| World.LocalStep | core/src/main/java/com/dinochrome/game/PantallaMultijugador.java:339-384 | the local player crouches only on the ground. A jump leaves the ground, and landing clamps to the ground line with zero speed. `x` never changes |
| World.MyState | core/src/main/java/com/dinochrome/game/PantallaMultijugador.java:386-401 | the snapshot `enviarMiEstado` builds: my id with player 1's fields when my id is 1, player 2's otherwise; no ensures of its own; stated by ReplicatesPlayerOne and ReplicatesPlayerTwo |
| World.ApplyRemote | core/src/main/java/com/dinochrome/game/PantallaMultijugador.java:403-421 | `aplicarEstadoRemoto` on the two players; no ensures of its own; stated by RemoteIgnored, RemoteMovesTwo, RemoteMovesOne and RemoteKeepsLocal, and implemented by MultiplayerScreen.ApplyRemoteState |
| World.RemoteIgnored | core/src/main/java/com/dinochrome/game/PantallaMultijugador.java:403-421 | no snapshot, my own id, or any pairing other than 1 and 2 leaves both players unchanged |
| World.RemoteMovesTwo | core/src/main/java/com/dinochrome/game/PantallaMultijugador.java:409-415 | as player 1, a snapshot of player 2 sets only player 2's position and crouch; its speed and ground flag stay, and player 1 is unchanged |
| World.RemoteMovesOne | core/src/main/java/com/dinochrome/game/PantallaMultijugador.java:416-420 | as player 2, a snapshot of player 1 sets only player 1's position and crouch |
| World.RemoteKeepsLocal | core/src/main/java/com/dinochrome/game/PantallaMultijugador.java:403-421 | the local player is never overwritten, and applying the same snapshot again changes nothing |
| World.ReplicatesPlayerOne | core/src/main/java/com/dinochrome/game/PantallaMultijugador.java:386-421 | what peer 1 sends with `enviarMiEstado`, once received by peer 2 and applied by its `aplicarEstadoRemoto`, moves peer 2's player 1 to peer 1's position and crouch, and leaves peer 2's own player alone |
| World.ReplicatesPlayerTwo | core/src/main/java/com/dinochrome/game/PantallaMultijugador.java:386-421 | the mirror: what peer 2 sends lands on peer 1's player 2, and peer 1's own player stays |
| World.Overlaps | core/src/main/java/com/dinochrome/game/PantallaMultijugador.java:318-325 | libGDX `Rectangle.overlaps`: strict overlap on both axes; no ensures of its own; stated by CrouchingShrinksHits, and by SweepHit and SweepWinner through `Hits` |
| World.Bounds | core/src/main/java/com/dinochrome/game/PantallaMultijugador.java:318-325 | `getBounds` of an obstacle: its position and size; no ensures of its own; used by SweepHit, and by SweepWinner through `Hits` |
| World.Advance | core/src/main/java/com/dinochrome/game/PantallaMultijugador.java:309-310 | `o.update`: the obstacle moves left by `dx`; no ensures of its own; stated by SurvivorsOnScreen, SweepHit and SweepWinner |
| World.OffScreen | core/src/main/java/com/dinochrome/game/PantallaMultijugador.java:312-316 | the removal test `o.x + o.width < 0`; no ensures of its own; stated by SurvivorsOnScreen, and by SweepNoHit through `Survivors` |
| World.SweepDown | core/src/main/java/com/dinochrome/game/PantallaMultijugador.java:306-327 | the reverse obstacle loop as a recursion from the last index down; no ensures of its own; stated by SweepSkip, SweepNoHit, SweepHit, SweepCounts and SweepWinner, and implemented by MultiplayerScreen.SweepObstacles |
| World.SurvivorsOnScreen | core/src/main/java/com/dinochrome/game/PantallaMultijugador.java:310-316 | every obstacle kept by the sweep has moved and is still on screen |
| World.SweepSkip | core/src/main/java/com/dinochrome/game/PantallaMultijugador.java:306-327 | a stretch of obstacles that hit nobody is moved, or dropped with one point each, and the sweep carries on below it |
| World.SweepNoHit | core/src/main/java/com/dinochrome/game/PantallaMultijugador.java:306-316 | with no hit, the sweep keeps the moved on-screen obstacles in order. It scores one per obstacle dropped and names no winner |
| World.SweepHit | core/src/main/java/com/dinochrome/game/PantallaMultijugador.java:318-326 | the sweep stops at the highest hitting obstacle, leaving those below it untouched. The winner is 2 when player 1 was hit and 1 otherwise |
| World.SweepCounts | core/src/main/java/com/dinochrome/game/PantallaMultijugador.java:312-314 | obstacles left plus points scored equal the obstacles at the start; the winner is 0, 1 or 2 |
| World.SweepWinner | core/src/main/java/com/dinochrome/game/PantallaMultijugador.java:318-326 | a winner is named exactly when some obstacle hits a player after moving |
| Screen.MultiplayerScreen.constructor | core/src/main/java/com/dinochrome/game/PantallaMultijugador.java:132-144 | a new screen is in the lobby with no id, no score and the stored record. Both players are at their starts, and both callbacks are registered |
| Screen.MultiplayerScreen.UpdateHitboxes | core/src/main/java/com/dinochrome/game/PantallaMultijugador.java:423-429 | both hitboxes follow their players |
| Screen.MultiplayerScreen.StartFromLobby | core/src/main/java/com/dinochrome/game/PantallaMultijugador.java:203-226 | the match resets: out of the lobby, not over, no winner, score 0, players at their starts, no obstacles |
| Screen.MultiplayerScreen.OnObstacle | core/src/main/java/com/dinochrome/game/PantallaMultijugador.java:188-195 | the converted obstacle is appended to the list |
| Screen.MultiplayerScreen.EndMatch | core/src/main/java/com/dinochrome/game/PantallaMultijugador.java:431-442 | the match is over with the given winner, and the record becomes the larger of itself and the score |
| Screen.MultiplayerScreen.SendMyState | core/src/main/java/com/dinochrome/game/PantallaMultijugador.java:386-401 | exactly my player's snapshot is sent |
| Screen.MultiplayerScreen.ApplyRemoteState | core/src/main/java/com/dinochrome/game/PantallaMultijugador.java:403-421 | the players become what `ApplyRemote` gives for the client's last snapshot |
| Screen.MultiplayerScreen.LocalPhysics | core/src/main/java/com/dinochrome/game/PantallaMultijugador.java:339-384 | only my player takes the local step; the other is untouched |
| Screen.MultiplayerScreen.SweepObstacles | core/src/main/java/com/dinochrome/game/PantallaMultijugador.java:306-327 | the in-place loop leaves the obstacles, score and winner `SweepDown` gives. The match ends exactly on a hit, with the record raised to the score if higher |
| Screen.MultiplayerScreen.Update | core/src/main/java/com/dinochrome/game/PantallaMultijugador.java:237-327 | one case per branch of `actualizar`: the lobby as in `Lobby`; after a match only M is watched for; without an id of 1 or 2 nothing changes; otherwise as in `Play`. The screen invariant is kept |
| Screen.MultiplayerScreen.Lobby | core/src/main/java/com/dinochrome/game/PantallaMultijugador.java:241-255 | a raised start flag is cleared and the match reset. Otherwise only READY is sent, once, when not ready and ENTER was pressed |
| Screen.MultiplayerScreen.Play | core/src/main/java/com/dinochrome/game/PantallaMultijugador.java:281-327 | my player moves, my state is sent, the peer's snapshot is applied, and the obstacles are swept against the new hitboxes, in that order |
| Screen.MultiplayerScreen.Render | core/src/main/java/com/dinochrome/game/PantallaMultijugador.java:228-235 | the id is copied from the client before the update, and the frame has the outcome `actualizar` gives for that id: in the lobby the start flag resets the match, otherwise ENTER sends READY once; after the match only M matters; during a match without an id of 1 or 2 nothing moves, scores or is sent; with an id of 1 or 2 my player moves, my state is sent, the peer's snapshot is applied and the obstacles are swept |

The screen invariant: the winner is 0 exactly while the match is not over, the record covers a finished match's score, the lobby has no score, and the hitboxes follow the players.

## Left out

- Sockets and threads are not modelled: the sockets, the broadcast address, the receive timeout, `cerrar`, the daemon threads, `volatile` publication, `Thread.sleep`, and the `postRunnable` queue that defers callbacks to the render thread. Discovery reads an abstract sequence of replies, and sending appends to a log.
- The join-retry thread and the receive thread are interleaved at one granularity: before each JOIN the loop reads `myId`, and then a whole batch of datagrams (one round) is received.
- The receive loop runs over a finite run of datagrams; Java's runs forever.
- Client.GameClient.Send: a send that fails is still logged. `enviarTexto` swallows every exception from the socket, so `sent` holds every datagram handed to the socket, not every datagram delivered.
- A datagram's payload is the text after receiving: after the cut to the 256-byte buffer in discovery and the 2048-byte buffer in the receive loop (`GameClient.java` lines 81 and 129), and after UTF-8 decoding. Longer datagrams and invalid byte sequences are not modelled.
- Callbacks are modelled as "registered" flags. Their calls are logged (a count of start calls and the obstacles delivered), and their bodies are the screen methods `StartFromLobby` and `OnObstacle`.
- Floating point is replaced by integers.
  - `x`, `y`, `w`, `h` and the vertical speed are integers.
  - `leerFloat` (`ReadNumber`) accepts only an optional sign and digits. Java's `Float.parseFloat` also accepts fractions, exponents, `NaN`, surrounding blanks and float rounding.
  - `send` prints positions as integers, where Java prints a float such as `80.0`.
- `Integer.parseInt` is modelled for ASCII digits only; Java also accepts other Unicode decimal digits.
- LocalStep: the float gravity integration is not computed. Its result height and speed are the parameter `air`, and the model states the crouch, jump and ground-clamp rules around it.
- Screen.MultiplayerScreen.SweepObstacles: the distance an obstacle moves (`speed * delta`) is the integer parameter `dx`. The speed increase, animation timers, day and night cycle, sounds and drawing are not modelled.
- Obstacles are values in a `seq` field, not `Obstaculos` objects with their own `Rectangle`, so aliasing of the bounds rectangle is not modelled.
- The score is an unbounded integer; 32-bit wrap-around of `puntaje` is not modelled.
- The record is not persisted: `Preferences` and `flush` are not modelled, and the constructor takes the stored record as a parameter.
- The screen receives its `GameClient` as a parameter instead of constructing it.
- Keyboard polling (ENTER, M, the crouch and jump keys) becomes boolean parameters. The switch to the menu screen is the result `toMenu`.
- `myId` is not required to be 1 or 2: `ASSIGN;id=0` is accepted as Java accepts it, and keeps the join-retry loop running.
- The `OBST` encoder is the server's wire shape, given only so that the obstacle parser has a round trip to be stated against; the server is not part of this model.
- `GameScreen.java`, `PantallaMenu.java`, `PantallaControles.java` and `LanzadorDelJuego.java` are not part of this model. They hold the single-player game, the menus and the libGDX bootstrap.

/**
 * The discrete rules of the two-player match, on values: the players, their
 * hitboxes, the obstacles and one sweep over them. Positions are integers
 * here; the screen keeps them as floats (see README, "Left out").
 */
module World {
  import opened Wrappers
  import opened Numbers
  import opened Protocol
  import opened SessionState

  /** Height of the ground line (`Y_SUELO`). */
  const Ground: int := 40

  /** Hitbox width and the standing and crouched heights. */
  const HitboxWidth: int := 30
  const StandingHeight: int := 40
  const CrouchedHeight: int := 25

  /** Obstacle kinds (`Obstaculos.CACTUS`, `Obstaculos.PTERO`). */
  const Cactus: int := 0
  const Ptero: int := 1

  /** One player's fields on the screen: `xJ`, `yJ`, `agachadoJ`, `velYJ`, `enSueloJ`. */
  datatype Dino = Dino(x: int, y: int, crouched: bool, velY: int, onGround: bool)

  /** Where each player stands when a match starts. */
  const StartJ1 := Dino(80, Ground, false, 0, true)
  const StartJ2 := Dino(140, Ground, false, 0, true)

  /** An axis-aligned rectangle (`Rectangle`). */
  datatype Rect = Rect(x: int, y: int, width: int, height: int)

  /** `Rectangle.overlaps`: the interiors intersect (touching edges do not count). */
  predicate Overlaps(a: Rect, b: Rect)
  {
    a.x < b.x + b.width && a.x + a.width > b.x && a.y < b.y + b.height && a.y + a.height > b.y
  }

  /** An obstacle on the screen (`Obstaculos`). */
  datatype Obstacle = Obstacle(x: int, y: int, width: int, height: int, kind: int)

  /** `getBounds()`: the obstacle's rectangle, kept at its position. */
  function Bounds(o: Obstacle): Rect
  {
    Rect(o.x, o.y, o.width, o.height)
  }

  /** `update`: the obstacle moves left by `dx` (speed times frame time). */
  function Advance(o: Obstacle, dx: int): Obstacle
  {
    o.(x := o.x - dx)
  }

  /** Its right edge has passed the left border of the screen. */
  predicate OffScreen(o: Obstacle)
  {
    o.x + o.width < 0
  }

  /** The obstacle callback's conversion: kind 0 is a cactus, any other kind a pterodactyl. */
  function FromNet(os: ObstacleState): (o: Obstacle)
    ensures o.kind == Cactus || o.kind == Ptero
    ensures o.kind == Cactus <==> os.kind == 0
    ensures (o.x, o.y, o.width, o.height) == (os.x, os.y, os.width, os.height)
  {
    Obstacle(os.x, os.y, os.width, os.height, if os.kind == 0 then Cactus else Ptero)
  }

  /** `actualizarHitboxes` for one player: 30 wide, 25 high when crouched and 40 otherwise. */
  function HitboxOf(d: Dino): (r: Rect)
    ensures r.x == d.x && r.y == d.y && r.width == HitboxWidth
    ensures r.height == (if d.crouched then CrouchedHeight else StandingHeight)
  {
    Rect(d.x, d.y, HitboxWidth, if d.crouched then CrouchedHeight else StandingHeight)
  }

  /** Crouching never adds a hit: whatever hits the crouched player hits the standing one. */
  lemma CrouchingShrinksHits(d: Dino, r: Rect)
    requires Overlaps(r, HitboxOf(d.(crouched := true)))
    ensures Overlaps(r, HitboxOf(d.(crouched := false)))
  {
  }

  /**
   * The result of the local input and physics step (`leerEntradaYFisicaLocal`)
   * for one player. The float integration of gravity is not modelled: `air`
   * is the height and vertical speed it produced.
   */
  datatype Motion = Motion(y: int, velY: int)

  function LocalStep(d: Dino, crouchKey: bool, jumpKey: bool, air: Motion): (r: Dino)
    ensures r.x == d.x
    ensures r.crouched <==> crouchKey && d.onGround
    ensures air.y <= Ground ==> r.y == Ground && r.velY == 0 && r.onGround
    ensures air.y > Ground ==> r.y == air.y && r.velY == air.velY && (r.onGround <==> d.onGround && !jumpKey)
  {
    var crouched := crouchKey && d.onGround;
    var onGround := if jumpKey && d.onGround then false else d.onGround;
    if air.y <= Ground then Dino(d.x, Ground, crouched, 0, true)
    else Dino(d.x, air.y, crouched, air.velY, onGround)
  }

  /** The snapshot `enviarMiEstado` sends: player 1's fields when my id is 1, player 2's otherwise. */
  function MyState(myId: Int32, j1: Dino, j2: Dino): PlayerState
  {
    var d := if myId == 1 then j1 else j2;
    PlayerState(myId, d.x, d.y, d.crouched)
  }

  /**
   * `aplicarEstadoRemoto`: the peer's snapshot overwrites the position and
   * crouch of the other player only (its speed and ground flag stay).
   */
  function ApplyRemote(myId: Int32, other: Option<PlayerState>, j1: Dino, j2: Dino): (Dino, Dino)
  {
    match other
    case None => (j1, j2)
    case Some(ps) =>
      if ps.playerId == myId then (j1, j2)
      else if myId == 1 && ps.playerId == 2 then (j1, j2.(x := ps.x, y := ps.y, crouched := ps.ducking))
      else if myId == 2 && ps.playerId == 1 then (j1.(x := ps.x, y := ps.y, crouched := ps.ducking), j2)
      else (j1, j2)
  }

  /** No snapshot, my own snapshot, or any pairing of ids other than 1 and 2 leaves both players as they were. */
  lemma RemoteIgnored(myId: Int32, other: Option<PlayerState>, j1: Dino, j2: Dino)
    requires other.None? || other.value.playerId == myId ||
             !((myId == 1 && other.value.playerId == 2) || (myId == 2 && other.value.playerId == 1))
    ensures ApplyRemote(myId, other, j1, j2) == (j1, j2)
  {
  }

  /** As player 1, a snapshot of player 2 moves only player 2, and keeps its speed and ground flag. */
  lemma RemoteMovesTwo(ps: PlayerState, j1: Dino, j2: Dino)
    requires ps.playerId == 2
    ensures var (a, b) := ApplyRemote(1, Some(ps), j1, j2);
      && a == j1
      && b == Dino(ps.x, ps.y, ps.ducking, j2.velY, j2.onGround)
  {
  }

  /** As player 2, a snapshot of player 1 moves only player 1, and keeps its speed and ground flag. */
  lemma RemoteMovesOne(ps: PlayerState, j1: Dino, j2: Dino)
    requires ps.playerId == 1
    ensures var (a, b) := ApplyRemote(2, Some(ps), j1, j2);
      && a == Dino(ps.x, ps.y, ps.ducking, j1.velY, j1.onGround)
      && b == j2
  {
  }

  /** The local player is never overwritten, and applying the same snapshot twice changes nothing more. */
  lemma RemoteKeepsLocal(myId: Int32, other: Option<PlayerState>, j1: Dino, j2: Dino)
    ensures myId == 1 ==> ApplyRemote(myId, other, j1, j2).0 == j1
    ensures myId == 2 ==> ApplyRemote(myId, other, j1, j2).1 == j2
    ensures var (a, b) := ApplyRemote(myId, other, j1, j2); ApplyRemote(myId, other, a, b) == (a, b)
  {
  }

  /**
   * Replication from player 1: the state peer 1 sends, once received by
   * peer 2, puts peer 2's copy of player 1 where peer 1's player is, with
   * its crouch; peer 2's own player stays.
   */
  lemma ReplicatesPlayerOne(s: Session, j1: Dino, j2: Dino, b1: Dino, b2: Dino)
    ensures var t := Receive(s, EncodeState(MyState(1, j1, j2))).session;
      ApplyRemote(2, t.otherPlayer, b1, b2) == (b1.(x := j1.x, y := j1.y, crouched := j1.crouched), b2)
  {
    PeerStateArrives(s, MyState(1, j1, j2));
  }

  /** Replication from player 2, the mirror of `ReplicatesPlayerOne`. */
  lemma ReplicatesPlayerTwo(s: Session, j1: Dino, j2: Dino, b1: Dino, b2: Dino)
    ensures var t := Receive(s, EncodeState(MyState(2, j1, j2))).session;
      ApplyRemote(1, t.otherPlayer, b1, b2) == (b1, b2.(x := j2.x, y := j2.y, crouched := j2.crouched))
  {
    PeerStateArrives(s, MyState(2, j1, j2));
  }

  /**
   * One pass of the obstacle loop: the list left, how many obstacles were
   * removed (one point each) and the winner (0 when nobody was hit).
   */
  datatype Sweep = Sweep(obstacles: seq<Obstacle>, removed: nat, winner: int)

  /**
   * The loop `for (i = size - 1; i >= 0; i--)` over the indices below `i`:
   * each obstacle moves; one that left the screen is removed and scores;
   * one that hits player 1 makes player 2 the winner, else one that hits
   * player 2 makes player 1 the winner, and the loop stops there.
   */
  function SweepDown(obs: seq<Obstacle>, i: nat, dx: int, h1: Rect, h2: Rect): Sweep
    requires i <= |obs|
    decreases i
  {
    if i == 0 then Sweep(obs, 0, 0)
    else
      var o := Advance(obs[i - 1], dx);
      if OffScreen(o) then
        var r := SweepDown(obs[..i - 1] + obs[i..], i - 1, dx, h1, h2);
        Sweep(r.obstacles, r.removed + 1, r.winner)
      else if Overlaps(Bounds(o), h1) then Sweep(obs[i - 1 := o], 0, 2)
      else if Overlaps(Bounds(o), h2) then Sweep(obs[i - 1 := o], 0, 1)
      else SweepDown(obs[i - 1 := o], i - 1, dx, h1, h2)
  }

  /** After moving, the obstacle is still on the screen and touches a player. */
  predicate Hits(o: Obstacle, dx: int, h1: Rect, h2: Rect)
  {
    var m := Advance(o, dx);
    !OffScreen(m) && (Overlaps(Bounds(m), h1) || Overlaps(Bounds(m), h2))
  }

  /** The obstacles of `s` after moving, without those that left the screen, in order. */
  function Survivors(s: seq<Obstacle>, dx: int): (r: seq<Obstacle>)
    ensures |r| <= |s|
  {
    if s == [] then []
    else
      var m := Advance(s[|s| - 1], dx);
      Survivors(s[..|s| - 1], dx) + (if OffScreen(m) then [] else [m])
  }

  /** Every survivor is an obstacle of `s` moved by `dx` that is still on the screen. */
  lemma {:induction false} SurvivorsOnScreen(s: seq<Obstacle>, dx: int)
    ensures forall o :: o in Survivors(s, dx) ==> !OffScreen(o) && exists p :: p in s && o == Advance(p, dx)
  {
    if s != [] {
      SurvivorsOnScreen(s[..|s| - 1], dx);
      forall o | o in Survivors(s, dx)
        ensures !OffScreen(o) && exists p :: p in s && o == Advance(p, dx)
      {
        if o in Survivors(s[..|s| - 1], dx) {
          var p :| p in s[..|s| - 1] && o == Advance(p, dx);
          assert p in s;
        } else {
          assert s[|s| - 1] in s;
        }
      }
    }
  }

  /** `Survivors` over a slice, one obstacle shorter at the top. */
  lemma SurvivorsStep(obs: seq<Obstacle>, lo: nat, hi: nat, dx: int)
    requires lo < hi <= |obs|
    ensures var m := Advance(obs[hi - 1], dx);
      Survivors(obs[lo..hi], dx) == Survivors(obs[lo..hi - 1], dx) + (if OffScreen(m) then [] else [m])
  {
    assert obs[lo..hi][..hi - 1 - lo] == obs[lo..hi - 1];
    assert obs[lo..hi][hi - 1 - lo] == obs[hi - 1];
  }

  /** Removing the obstacle at `i - 1` leaves the pieces around it in place. */
  lemma DropSlices(obs: seq<Obstacle>, j: nat, i: nat)
    requires j < i <= |obs|
    ensures var rest := obs[..i - 1] + obs[i..];
      && rest[..j] == obs[..j] && rest[j..i - 1] == obs[j..i - 1] && rest[i - 1..] == obs[i..]
  {
  }

  /** Replacing the obstacle at `i - 1` by `o` puts `o` between the pieces around it. */
  lemma MoveSlices(obs: seq<Obstacle>, j: nat, i: nat, o: Obstacle)
    requires j < i <= |obs|
    ensures forall kept: seq<Obstacle> ::
      var moved := obs[i - 1 := o];
      moved[..j] + kept + moved[i - 1..] == obs[..j] + (kept + [o]) + obs[i..]
  {
    var moved := obs[i - 1 := o];
    assert moved[..j] == obs[..j] && moved[i - 1..] == [o] + obs[i..];
    forall kept: seq<Obstacle>
      ensures moved[..j] + kept + moved[i - 1..] == obs[..j] + (kept + [o]) + obs[i..]
    {
      assert obs[..j] + kept + ([o] + obs[i..]) == obs[..j] + (kept + [o]) + obs[i..];
    }
  }

  /**
   * Obstacles from `j` up to `i` that hit nobody are simply moved or
   * dropped: the sweep from `i` is the sweep from `j` over the list with
   * that stretch replaced by its survivors, plus one point per dropped one.
   */
  lemma {:induction false} SweepSkip(obs: seq<Obstacle>, j: nat, i: nat, dx: int, h1: Rect, h2: Rect)
    requires j <= i <= |obs|
    requires forall m :: j <= m < i ==> !Hits(obs[m], dx, h1, h2)
    ensures var kept := Survivors(obs[j..i], dx);
      var r := SweepDown(obs[..j] + kept + obs[i..], j, dx, h1, h2);
      SweepDown(obs, i, dx, h1, h2) == Sweep(r.obstacles, r.removed + (i - j - |kept|), r.winner)
    decreases i - j
  {
    if j == i {
      assert obs[j..i] == [];
      assert obs[..j] + [] + obs[i..] == obs;
    } else {
      var o := Advance(obs[i - 1], dx);
      var kept := Survivors(obs[j..i - 1], dx);
      SurvivorsStep(obs, j, i, dx);
      assert !Hits(obs[i - 1], dx, h1, h2);
      if OffScreen(o) {
        var rest := obs[..i - 1] + obs[i..];
        DropSlices(obs, j, i);
        SweepSkip(rest, j, i - 1, dx, h1, h2);
        var r := SweepDown(rest, i - 1, dx, h1, h2);
        assert SweepDown(obs, i, dx, h1, h2) == Sweep(r.obstacles, r.removed + 1, r.winner);
        assert Survivors(obs[j..i], dx) == kept;
      } else {
        var moved := obs[i - 1 := o];
        MoveSlices(obs, j, i, o);
        SweepSkip(moved, j, i - 1, dx, h1, h2);
        assert SweepDown(obs, i, dx, h1, h2) == SweepDown(moved, i - 1, dx, h1, h2);
        assert Survivors(obs[j..i], dx) == kept + [o];
      }
    }
  }

  /**
   * When no obstacle below `i` hits anyone, the sweep moves them all, drops
   * those that left the screen, scores one per dropped obstacle and names
   * no winner; the obstacles from `i` on are not touched.
   */
  lemma SweepNoHit(obs: seq<Obstacle>, i: nat, dx: int, h1: Rect, h2: Rect)
    requires i <= |obs|
    requires forall j :: 0 <= j < i ==> !Hits(obs[j], dx, h1, h2)
    ensures SweepDown(obs, i, dx, h1, h2) ==
      Sweep(Survivors(obs[..i], dx) + obs[i..], i - |Survivors(obs[..i], dx)|, 0)
  {
    SweepSkip(obs, 0, i, dx, h1, h2);
    assert obs[0..i] == obs[..i];
    assert obs[..0] + Survivors(obs[..i], dx) + obs[i..] == Survivors(obs[..i], dx) + obs[i..];
  }

  /**
   * When `k` is the highest index below `i` whose obstacle hits someone, the
   * sweep stops there: the obstacles below `k` are not touched, the one at
   * `k` has moved, those between were handled as in `SweepNoHit`, and the
   * winner is 2 when player 1 was hit and 1 otherwise.
   */
  lemma SweepHit(obs: seq<Obstacle>, i: nat, k: nat, dx: int, h1: Rect, h2: Rect)
    requires k < i <= |obs|
    requires Hits(obs[k], dx, h1, h2)
    requires forall j :: k < j < i ==> !Hits(obs[j], dx, h1, h2)
    ensures var kept := Survivors(obs[k + 1..i], dx);
      SweepDown(obs, i, dx, h1, h2) ==
        Sweep(obs[..k] + [Advance(obs[k], dx)] + kept + obs[i..],
              i - k - 1 - |kept|,
              if Overlaps(Bounds(Advance(obs[k], dx)), h1) then 2 else 1)
  {
    SweepSkip(obs, k + 1, i, dx, h1, h2);
    var kept := Survivors(obs[k + 1..i], dx);
    var m := Advance(obs[k], dx);
    var x := obs[..k + 1] + kept + obs[i..];
    ReplaceAt(obs, k, m, kept, obs[i..]);
    assert SweepDown(x, k + 1, dx, h1, h2) == Sweep(x[k := m], 0, if Overlaps(Bounds(m), h1) then 2 else 1);
  }

  /** Replacing the last obstacle of a prefix, with more obstacles after it. */
  lemma ReplaceAt(obs: seq<Obstacle>, k: nat, m: Obstacle, kept: seq<Obstacle>, rest: seq<Obstacle>)
    requires k < |obs|
    ensures (obs[..k + 1] + kept + rest)[k] == obs[k]
    ensures (obs[..k + 1] + kept + rest)[k := m] == obs[..k] + [m] + kept + rest
  {
    var x := obs[..k + 1] + kept + rest;
    assert x[k := m] == obs[..k] + [m] + kept + rest;
  }

  /** The score a sweep adds plus the obstacles it leaves is the number it started with, and the winner is 0, 1 or 2. */
  lemma {:induction false} SweepCounts(obs: seq<Obstacle>, i: nat, dx: int, h1: Rect, h2: Rect)
    requires i <= |obs|
    ensures var r := SweepDown(obs, i, dx, h1, h2);
      |r.obstacles| + r.removed == |obs| && 0 <= r.winner <= 2
    decreases i
  {
    if i > 0 {
      var o := Advance(obs[i - 1], dx);
      if OffScreen(o) {
        SweepCounts(obs[..i - 1] + obs[i..], i - 1, dx, h1, h2);
      } else if !Overlaps(Bounds(o), h1) && !Overlaps(Bounds(o), h2) {
        SweepCounts(obs[i - 1 := o], i - 1, dx, h1, h2);
      }
    }
  }

  /** A winner is named exactly when some obstacle below `i` hits a player. */
  lemma {:induction false} SweepWinner(obs: seq<Obstacle>, i: nat, dx: int, h1: Rect, h2: Rect)
    requires i <= |obs|
    ensures SweepDown(obs, i, dx, h1, h2).winner != 0 <==> exists j :: 0 <= j < i && Hits(obs[j], dx, h1, h2)
    decreases i
  {
    if i > 0 {
      var o := Advance(obs[i - 1], dx);
      if OffScreen(o) {
        var rest := obs[..i - 1] + obs[i..];
        SweepWinner(rest, i - 1, dx, h1, h2);
        assert !Hits(obs[i - 1], dx, h1, h2);
        assert forall j :: 0 <= j < i - 1 ==> rest[j] == obs[j];
      } else if Overlaps(Bounds(o), h1) || Overlaps(Bounds(o), h2) {
        assert Hits(obs[i - 1], dx, h1, h2);
      } else {
        var moved := obs[i - 1 := o];
        SweepWinner(moved, i - 1, dx, h1, h2);
        assert !Hits(obs[i - 1], dx, h1, h2);
        assert forall j :: 0 <= j < i - 1 ==> moved[j] == obs[j];
      }
    }
  }
}

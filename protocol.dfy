/**
 * The text wire format of the game client: `COMMAND;key=value;key=value`.
 * A value is found by searching for the first `key=` anywhere in the message
 * and reading up to the next `;` or the end; a record is built only when
 * every one of its keys is present and parses.
 */
module Protocol {
  import opened Wrappers
  import opened Numbers
  import opened Text

  /**
   * A player's snapshot (`PlayerState`). Java keeps `x` and `y` as floats;
   * the model keeps them as integers (see README, "Left out").
   */
  datatype PlayerState = PlayerState(playerId: Int32, x: int, y: int, ducking: bool)

  /** An obstacle announced by the server (`EstadoObstaculo`). */
  datatype ObstacleState = ObstacleState(x: int, y: int, width: int, height: int, kind: Int32)

  /**
   * Reading one numeric field: the key is missing (Java returns null), its
   * value does not parse (Java throws NumberFormatException), or a value.
   */
  datatype Field<T> = Absent | Malformed | Present(value: T)

  /** `v` is the value text that starts at `start`: it runs to the next `;` or to the end. */
  predicate ValueAt(s: string, start: nat, v: string)
  {
    start + |v| <= |s| && s[start..start + |v|] == v && ';' !in v &&
    (start + |v| == |s| || s[start + |v|] == ';')
  }

  lemma NoSemicolonBefore(s: string, start: nat, fin: nat)
    requires start <= fin <= |s|
    requires forall j :: start <= j < fin ==> !OccursAt(s, ";", j)
    ensures ';' !in s[start..fin]
  {
    forall k | start <= k < fin ensures s[k] != ';' {
      assert s[k..k + 1] == [s[k]];
      assert !OccursAt(s, ";", k);
    }
  }

  /** No `;` occurs inside a value text. */
  lemma NoSemicolonWithin(s: string, start: nat, v: string)
    requires ValueAt(s, start, v)
    ensures forall j :: start <= j < start + |v| ==> !OccursAt(s, ";", j)
  {
    forall j | start <= j < start + |v| ensures !OccursAt(s, ";", j) {
      assert s[j] == v[j - start] && v[j - start] != ';';
      assert s[j..j + 1] == [s[j]];
    }
  }

  /**
   * `leerValor(msg, clave)`: the text after the first `clave=`, up to the
   * next `;` or the end of the message; `None` when `clave=` never occurs.
   */
  function ReadValue(msg: string, key: string): Option<string>
  {
    var pat := key + "=";
    match IndexOf(msg, pat, 0)
    case None => None
    case Some(i) =>
      var start := i + |pat|;
      var fin := match IndexOf(msg, ";", start) case Some(f) => f case None => |msg|;
      Some(msg[start..fin])
  }

  /**
   * `ReadValue` finds nothing exactly when `key=` never occurs; otherwise its
   * text starts right after the first `key=`, holds no `;`, and is followed
   * by `;` or the end of the message.
   */
  lemma ReadValueSpec(msg: string, key: string)
    ensures ReadValue(msg, key).None? <==> forall j: nat :: !OccursAt(msg, key + "=", j)
    ensures ReadValue(msg, key).Some? ==> ';' !in ReadValue(msg, key).value
    ensures ReadValue(msg, key).Some? ==>
      exists i: nat :: IsFirst(msg, key + "=", i) && ValueAt(msg, i + |key| + 1, ReadValue(msg, key).value)
  {
    var pat := key + "=";
    IndexOfSpec(msg, pat, 0);
    match IndexOf(msg, pat, 0)
    case None =>
    case Some(i) =>
      var start := i + |pat|;
      IndexOfSpec(msg, ";", start);
      var fin := match IndexOf(msg, ";", start) case Some(f) => f case None => |msg|;
      NoSemicolonBefore(msg, start, fin);
      assert IsFirst(msg, pat, i) && ValueAt(msg, start, msg[start..fin]);
  }

  /** The converse: the value after the first `key=` is what `ReadValue` returns. */
  lemma ReadValueAt(msg: string, key: string, i: nat, v: string)
    requires IsFirst(msg, key + "=", i) && ValueAt(msg, i + |key| + 1, v)
    ensures ReadValue(msg, key) == Some(v)
  {
    var pat := key + "=";
    var start := i + |pat|;
    var fin := start + |v|;
    assert IndexOf(msg, pat, 0) == Some(i) by {
      IndexOfFirst(msg, pat, 0, i);
    }
    assert IndexOf(msg, ";", start) == (if fin < |msg| then Some(fin) else None) by {
      NoSemicolonWithin(msg, start, v);
      if fin < |msg| {
        assert msg[fin..fin + 1] == ";";
        IndexOfFirst(msg, ";", start, fin);
      }
    }
    assert msg[start..fin] == v;
  }

  /**
   * A field written as `key=v` after `prefix` is read back as `v`, provided
   * some character of `key=` cannot be matched earlier: it occurs neither in
   * `prefix` nor before its own position in `key=`.
   */
  lemma FieldIn(prefix: string, key: string, v: string, rest: string, m: nat)
    requires m < |key| + 1
    requires (key + "=")[m] !in prefix && (key + "=")[m] !in (key + "=")[..m]
    requires ';' !in v && (rest == [] || rest[0] == ';')
    ensures ReadValue(prefix + (key + "=") + v + rest, key) == Some(v)
  {
    var pat := key + "=";
    var msg := prefix + pat + v + rest;
    var i := |prefix|;
    assert msg[i..i + |pat|] == pat;
    forall j | 0 <= j < i ensures !OccursAt(msg, pat, j) {
    }
    var start := i + |pat|;
    assert msg[start..start + |v|] == v;
    if rest != [] {
      assert msg[start + |v|] == rest[0];
    }
    ReadValueAt(msg, key, i, v);
  }

  /** `leerEntero`: the value of `key`, parsed by `Integer.parseInt`. */
  function ReadInt(msg: string, key: string): Field<Int32>
  {
    match ReadValue(msg, key)
    case None => Absent
    case Some(v) => match ParseInt(v) case None => Malformed case Some(n) => Present(n)
  }

  /** `leerFloat`: the value of `key`, parsed as an unbounded signed decimal. */
  function ReadNumber(msg: string, key: string): Field<int>
  {
    match ReadValue(msg, key)
    case None => Absent
    case Some(v) => match ParseSigned(v) case None => Malformed case Some(n) => Present(n)
  }

  /**
   * `parsearPlayerState`: a whole snapshot or nothing. A missing key and an
   * unparsable number both give `None` (Java catches the exception).
   */
  function ParsePlayerState(msg: string): Option<PlayerState>
  {
    match (ReadInt(msg, "id"), ReadNumber(msg, "x"), ReadNumber(msg, "y"), ReadInt(msg, "duck"))
    case (Present(id), Present(x), Present(y), Present(duck)) => Some(PlayerState(id, x, y, duck == 1))
    case _ => None
  }

  /** `parsearObstaculo`: a whole obstacle or nothing. */
  function ParseObstacle(msg: string): Option<ObstacleState>
  {
    match (ReadNumber(msg, "x"), ReadNumber(msg, "y"), ReadNumber(msg, "w"), ReadNumber(msg, "h"), ReadInt(msg, "t"))
    case (Present(x), Present(y), Present(w), Present(h), Present(t)) => Some(ObstacleState(x, y, w, h, t))
    case _ => None
  }

  /** The message `send(estado)` writes. */
  function EncodeState(ps: PlayerState): string
  {
    "STATE;id=" + IntToString(ps.playerId) + ";x=" + IntToString(ps.x) + ";y=" + IntToString(ps.y) +
    ";duck=" + (if ps.ducking then "1" else "0")
  }

  /**
   * The `OBST` message as the server writes it. The server is not part of
   * this model; this is the wire shape the client's parser expects.
   */
  function EncodeObstacle(o: ObstacleState): string
  {
    "OBST;x=" + IntToString(o.x) + ";y=" + IntToString(o.y) + ";w=" + IntToString(o.width) +
    ";h=" + IntToString(o.height) + ";t=" + IntToString(o.kind)
  }

  /** No partial snapshot: a result exists exactly when all four fields read, and it copies them. */
  lemma PlayerStateWhole(msg: string)
    ensures ParsePlayerState(msg).Some? <==>
      ReadInt(msg, "id").Present? && ReadNumber(msg, "x").Present? &&
      ReadNumber(msg, "y").Present? && ReadInt(msg, "duck").Present?
    ensures ParsePlayerState(msg).Some? ==>
      var ps := ParsePlayerState(msg).value;
      ps.playerId == ReadInt(msg, "id").value && ps.x == ReadNumber(msg, "x").value &&
      ps.y == ReadNumber(msg, "y").value && (ps.ducking <==> ReadInt(msg, "duck").value == 1)
  {
  }

  /** No partial obstacle: a result exists exactly when all five fields read, copied one to one. */
  lemma ObstacleWhole(msg: string)
    ensures ParseObstacle(msg).Some? <==>
      ReadNumber(msg, "x").Present? && ReadNumber(msg, "y").Present? && ReadNumber(msg, "w").Present? &&
      ReadNumber(msg, "h").Present? && ReadInt(msg, "t").Present?
    ensures ParseObstacle(msg).Some? ==>
      ParseObstacle(msg).value == ObstacleState(ReadNumber(msg, "x").value, ReadNumber(msg, "y").value,
        ReadNumber(msg, "w").value, ReadNumber(msg, "h").value, ReadInt(msg, "t").value)
  {
  }

  // Each value of an encoded snapshot is read back from its key.

  lemma StateId(ps: PlayerState)
    ensures ReadValue(EncodeState(ps), "id") == Some(IntToString(ps.playerId))
  {
    var a, b, c := IntToString(ps.playerId), IntToString(ps.x), IntToString(ps.y);
    var rest := ";x=" + b + ";y=" + c + ";duck=" + (if ps.ducking then "1" else "0");
    assert "STATE;" + ("id" + "=") == "STATE;id=";
    assert EncodeState(ps) == "STATE;" + ("id" + "=") + a + rest;
    assert ';' !in a by { IntToStringChars(ps.playerId); }
    FieldIn("STATE;", "id", a, rest, 0);
  }

  lemma StateX(ps: PlayerState)
    ensures ReadValue(EncodeState(ps), "x") == Some(IntToString(ps.x))
  {
    var a, b, c := IntToString(ps.playerId), IntToString(ps.x), IntToString(ps.y);
    var prefix := "STATE;id=" + a + ";";
    var rest := ";y=" + c + ";duck=" + (if ps.ducking then "1" else "0");
    assert EncodeState(ps) == prefix + ("x" + "=") + b + rest;
    assert ';' !in b by { IntToStringChars(ps.x); }
    assert 'x' !in prefix by { IntToStringChars(ps.playerId); }
    FieldIn(prefix, "x", b, rest, 0);
  }

  lemma StateY(ps: PlayerState)
    ensures ReadValue(EncodeState(ps), "y") == Some(IntToString(ps.y))
  {
    var a, b, c := IntToString(ps.playerId), IntToString(ps.x), IntToString(ps.y);
    var prefix := "STATE;id=" + a + ";x=" + b + ";";
    var rest := ";duck=" + (if ps.ducking then "1" else "0");
    assert EncodeState(ps) == prefix + ("y" + "=") + c + rest;
    assert ';' !in c by { IntToStringChars(ps.y); }
    assert 'y' !in prefix by { IntToStringChars(ps.playerId); IntToStringChars(ps.x); }
    FieldIn(prefix, "y", c, rest, 0);
  }

  /** `duck=` shares its `d` with the earlier `id=`, so the search is pinned on its `u`. */
  lemma StateDuck(ps: PlayerState)
    ensures ReadValue(EncodeState(ps), "duck") == Some(if ps.ducking then "1" else "0")
  {
    var a, b, c := IntToString(ps.playerId), IntToString(ps.x), IntToString(ps.y);
    var d := if ps.ducking then "1" else "0";
    var prefix := "STATE;id=" + a + ";x=" + b + ";y=" + c + ";";
    assert EncodeState(ps) == prefix + ("duck" + "=") + d + "";
    assert 'u' !in prefix by { IntToStringChars(ps.playerId); IntToStringChars(ps.x); IntToStringChars(ps.y); }
    FieldIn(prefix, "duck", d, "", 1);
  }

  /** What `send` writes, `parsearPlayerState` reads back unchanged. */
  lemma StateRoundTrip(ps: PlayerState)
    ensures ParsePlayerState(EncodeState(ps)) == Some(ps)
  {
    StateId(ps);
    StateX(ps);
    StateY(ps);
    StateDuck(ps);
    ParseIntRoundTrip(ps.playerId);
    ParseSignedRoundTrip(ps.x);
    ParseSignedRoundTrip(ps.y);
    ParseIntRoundTrip(if ps.ducking then 1 else 0);
  }

  // Each value of an encoded obstacle is read back from its key.

  lemma ObstacleX(o: ObstacleState)
    ensures ReadValue(EncodeObstacle(o), "x") == Some(IntToString(o.x))
  {
    var a, b, c, e, f := IntToString(o.x), IntToString(o.y), IntToString(o.width),
                         IntToString(o.height), IntToString(o.kind);
    var rest := ";y=" + b + ";w=" + c + ";h=" + e + ";t=" + f;
    assert "OBST;" + ("x" + "=") == "OBST;x=";
    assert EncodeObstacle(o) == "OBST;" + ("x" + "=") + a + rest;
    assert ';' !in a by { IntToStringChars(o.x); }
    FieldIn("OBST;", "x", a, rest, 0);
  }

  lemma ObstacleY(o: ObstacleState)
    ensures ReadValue(EncodeObstacle(o), "y") == Some(IntToString(o.y))
  {
    var a, b, c, e, f := IntToString(o.x), IntToString(o.y), IntToString(o.width),
                         IntToString(o.height), IntToString(o.kind);
    var prefix := "OBST;x=" + a + ";";
    var rest := ";w=" + c + ";h=" + e + ";t=" + f;
    assert EncodeObstacle(o) == prefix + ("y" + "=") + b + rest;
    assert ';' !in b by { IntToStringChars(o.y); }
    assert 'y' !in prefix by { IntToStringChars(o.x); }
    FieldIn(prefix, "y", b, rest, 0);
  }

  lemma ObstacleW(o: ObstacleState)
    ensures ReadValue(EncodeObstacle(o), "w") == Some(IntToString(o.width))
  {
    var a, b, c, e, f := IntToString(o.x), IntToString(o.y), IntToString(o.width),
                         IntToString(o.height), IntToString(o.kind);
    var prefix := "OBST;x=" + a + ";y=" + b + ";";
    var rest := ";h=" + e + ";t=" + f;
    assert EncodeObstacle(o) == prefix + ("w" + "=") + c + rest;
    assert ';' !in c by { IntToStringChars(o.width); }
    assert 'w' !in prefix by { IntToStringChars(o.x); IntToStringChars(o.y); }
    FieldIn(prefix, "w", c, rest, 0);
  }

  lemma ObstacleH(o: ObstacleState)
    ensures ReadValue(EncodeObstacle(o), "h") == Some(IntToString(o.height))
  {
    var a, b, c, e, f := IntToString(o.x), IntToString(o.y), IntToString(o.width),
                         IntToString(o.height), IntToString(o.kind);
    var prefix := "OBST;x=" + a + ";y=" + b + ";w=" + c + ";";
    var rest := ";t=" + f;
    assert EncodeObstacle(o) == prefix + ("h" + "=") + e + rest;
    assert ';' !in e by { IntToStringChars(o.height); }
    assert 'h' !in prefix by { IntToStringChars(o.x); IntToStringChars(o.y); IntToStringChars(o.width); }
    FieldIn(prefix, "h", e, rest, 0);
  }

  lemma ObstacleT(o: ObstacleState)
    ensures ReadValue(EncodeObstacle(o), "t") == Some(IntToString(o.kind))
  {
    var a, b, c, e, f := IntToString(o.x), IntToString(o.y), IntToString(o.width),
                         IntToString(o.height), IntToString(o.kind);
    var prefix := "OBST;x=" + a + ";y=" + b + ";w=" + c + ";h=" + e + ";";
    assert EncodeObstacle(o) == prefix + ("t" + "=") + f + "";
    assert ';' !in f by { IntToStringChars(o.kind); }
    assert 't' !in prefix by {
      IntToStringChars(o.x); IntToStringChars(o.y); IntToStringChars(o.width); IntToStringChars(o.height);
    }
    FieldIn(prefix, "t", f, "", 0);
  }

  /** An obstacle written in the server's `OBST` shape is read back unchanged. */
  lemma ObstacleRoundTrip(o: ObstacleState)
    ensures ParseObstacle(EncodeObstacle(o)) == Some(o)
  {
    ObstacleX(o);
    ObstacleY(o);
    ObstacleW(o);
    ObstacleH(o);
    ObstacleT(o);
    ParseSignedRoundTrip(o.x);
    ParseSignedRoundTrip(o.y);
    ParseSignedRoundTrip(o.width);
    ParseSignedRoundTrip(o.height);
    ParseIntRoundTrip(o.kind);
  }
}

/** The player's movement tick: every held direction moves the plane two units, kept inside the field. */
module Motion {
  import opened Entities

  /** Distance covered per tick by a held direction key. */
  const StepSize: int := 2

  predicate LeftHeld(keys: set<string>)  { "ArrowLeft" in keys || "a" in keys }
  predicate RightHeld(keys: set<string>) { "ArrowRight" in keys || "d" in keys }
  predicate UpHeld(keys: set<string>)    { "ArrowUp" in keys || "w" in keys }
  predicate DownHeld(keys: set<string>)  { "ArrowDown" in keys || "s" in keys }

  function Max(a: int, b: int): int { if a < b then b else a }
  function Min(a: int, b: int): int { if a < b then a else b }

  /** One coordinate of a move. The key towards 0 is applied first, then the key towards 100,
      each with its own clamp, exactly in the order of the source's two statements. */
  function StepAxis(v: int, dec: bool, inc: bool): int {
    var afterDec := if dec then Max(FieldMin, v - StepSize) else v;
    if inc then Min(FieldMax, afterDec + StepSize) else afterDec
  }

  /** One tick of player movement for the set of currently held keys. */
  function MovePlayer(p: Position, keys: set<string>): (r: Position)
    ensures InField(p) ==> InField(r)
    ensures !LeftHeld(keys) && !RightHeld(keys) ==> r.x == p.x
    ensures !UpHeld(keys) && !DownHeld(keys) ==> r.y == p.y
    ensures InField(p) ==> -StepSize <= r.x - p.x <= StepSize && -StepSize <= r.y - p.y <= StepSize
  {
    Position(StepAxis(p.x, LeftHeld(keys), RightHeld(keys)),
             StepAxis(p.y, UpHeld(keys), DownHeld(keys)))
  }

  /** Clamping to the field, the reference the move is measured against. */
  function Clamp(v: int): (r: int)
    ensures FieldMin <= r <= FieldMax
    ensures FieldMin <= v <= FieldMax ==> r == v
  {
    if v < FieldMin then FieldMin else if v > FieldMax then FieldMax else v
  }

  /** Net intended displacement of one axis. */
  function Displacement(dec: bool, inc: bool): int {
    (if inc then StepSize else 0) - (if dec then StepSize else 0)
  }

  /** Inside the field a move is the clamped intended displacement, except when both opposite
      keys are held next to the low wall: the first clamp swallows part of the backward step and
      the forward step is then taken in full, so the plane drifts to 2. */
  lemma StepAxisIsClampedDisplacement(v: int, dec: bool, inc: bool)
    requires FieldMin <= v <= FieldMax
    ensures StepAxis(v, dec, inc) ==
            if dec && inc && v < StepSize then StepSize else Clamp(v + Displacement(dec, inc))
  {
  }

  /** Both coordinates of a move, stated against the reference. */
  lemma MovePlayerIsClampedDisplacement(p: Position, keys: set<string>)
    requires InField(p)
    ensures var r := MovePlayer(p, keys);
      && r.x == (if LeftHeld(keys) && RightHeld(keys) && p.x < StepSize then StepSize
                 else Clamp(p.x + Displacement(LeftHeld(keys), RightHeld(keys))))
      && r.y == (if UpHeld(keys) && DownHeld(keys) && p.y < StepSize then StepSize
                 else Clamp(p.y + Displacement(UpHeld(keys), DownHeld(keys))))
  {
    StepAxisIsClampedDisplacement(p.x, LeftHeld(keys), RightHeld(keys));
    StepAxisIsClampedDisplacement(p.y, UpHeld(keys), DownHeld(keys));
  }

  /** The drift at the low wall, on a concrete input: left and right held at x = 0. */
  lemma OpposedKeysAtLowWall()
    ensures MovePlayer(Position(0, 50), {"a", "d"}) == Position(2, 50)
  {
  }
}

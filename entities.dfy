/** The records the flyer game keeps in its state: positions, enemies and the optional explosion marker. */
module Entities {

  datatype Option<T> = None | Some(value: T)

  /** A point of the playing field, in percent of the screen. The player starts at a whole
      point and moves in whole steps, so its coordinates are integers. */
  datatype Position = Position(x: int, y: int)

  /** An enemy plane: an identifier, a position and a velocity per movement tick. */
  datatype Enemy = Enemy(id: int, x: real, y: real, dx: real, dy: real)

  /** Bounds of the square the player is kept in. */
  const FieldMin: int := 0
  const FieldMax: int := 100

  predicate InField(p: Position) {
    FieldMin <= p.x <= FieldMax && FieldMin <= p.y <= FieldMax
  }
}

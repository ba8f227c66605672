/** The collision test: an enemy closer than 5 units to the player ends the game. The source
    compares the Euclidean distance with 5; the model compares its square with 25. */
module Collision {
  import opened Entities

  const HitRadius: real := 5.0

  /** Squared Euclidean distance between an enemy and the player. */
  function DistSq(e: Enemy, p: Position): (r: real)
    ensures r >= 0.0
  {
    var ddx, ddy := e.x - p.x as real, e.y - p.y as real;
    ddx * ddx + ddy * ddy
  }

  predicate Hits(e: Enemy, p: Position) {
    DistSq(e, p) < HitRadius * HitRadius
  }

  predicate Collides(es: seq<Enemy>, p: Position) {
    exists i :: 0 <= i < |es| && Hits(es[i], p)
  }

  /** For a non-negative distance d, comparing d * d with 25 is comparing d with 5, so the
      squared test decides exactly what the square-root test decides. */
  lemma SquaredTestMatchesDistance(e: Enemy, p: Position, d: real)
    requires d >= 0.0 && d * d == DistSq(e, p)
    ensures Hits(e, p) <==> d < HitRadius
  {
    if d < HitRadius {
      assert d * d <= d * HitRadius;
      assert d * HitRadius < HitRadius * HitRadius;
    } else {
      assert d * d >= d * HitRadius;
      assert d * HitRadius >= HitRadius * HitRadius;
    }
  }

  /** A hazard at distance 4.9 collides; one at distance 5.1 does not. */
  lemma ThresholdScenario(p: Position)
    ensures Hits(Enemy(0, p.x as real + 4.9, p.y as real, 0.0, 0.5), p)
    ensures !Hits(Enemy(0, p.x as real + 5.1, p.y as real, 0.0, 0.5), p)
  {
    var near, far := Enemy(0, p.x as real + 4.9, p.y as real, 0.0, 0.5), Enemy(0, p.x as real + 5.1, p.y as real, 0.0, 0.5);
    assert near.x - p.x as real == 4.9 && near.y - p.y as real == 0.0;
    assert far.x - p.x as real == 5.1 && far.y - p.y as real == 0.0;
    assert DistSq(far, p) == 5.1 * 5.1;
  }

  /** Collision with a list is collision with one of its parts. */
  lemma CollidesAppend(a: seq<Enemy>, b: seq<Enemy>, p: Position)
    ensures Collides(a + b, p) <==> Collides(a, p) || Collides(b, p)
  {
    if Collides(a + b, p) {
      var i :| 0 <= i < |a + b| && Hits((a + b)[i], p);
      if i >= |a| { assert b[i - |a|] == (a + b)[i]; }
    }
    if Collides(a, p) {
      var i :| 0 <= i < |a| && Hits(a[i], p);
      assert (a + b)[i] == a[i];
    }
    if Collides(b, p) {
      var i :| 0 <= i < |b| && Hits(b[i], p);
      assert (a + b)[|a| + i] == b[i];
    }
  }
}

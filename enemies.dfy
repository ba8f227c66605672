/** The enemies' movement tick: every enemy is translated by its velocity scaled by the game
    speed, and the enemies that have passed the bottom line are dropped. */
module Enemies {
  import opened Entities

  /** Enemies whose y has reached this value are removed. */
  const CullLine: real := 110.0

  /** One enemy after one movement tick at the given game speed. */
  function Translate(e: Enemy, speed: real): Enemy {
    e.(x := e.x + e.dx * speed, y := e.y + e.dy * speed)
  }

  /** The mapping step: every enemy translated, in the same order. */
  function Advance(es: seq<Enemy>, speed: real): (r: seq<Enemy>)
    ensures |r| == |es|
    ensures forall i :: 0 <= i < |es| ==> r[i] == Translate(es[i], speed)
  {
    if es == [] then [] else [Translate(es[0], speed)] + Advance(es[1..], speed)
  }

  /** The filtering step: the enemies above the cull line, in the same order. */
  function Cull(es: seq<Enemy>): (r: seq<Enemy>)
    ensures |r| <= |es|
    ensures forall e :: e in r <==> e in es && e.y < CullLine
  {
    if es == [] then []
    else (if es[0].y < CullLine then [es[0]] else []) + Cull(es[1..])
  }

  /** Culling distributes over concatenation, so survivors keep their relative order. */
  lemma {:induction false} CullAppend(a: seq<Enemy>, b: seq<Enemy>)
    ensures Cull(a + b) == Cull(a) + Cull(b)
  {
    if a == [] {
      assert a + b == b;
    } else {
      assert (a + b)[0] == a[0];
      assert (a + b)[1..] == a[1..] + b;
      CullAppend(a[1..], b);
    }
  }

  /** A list whose enemies are all above the line is kept whole. */
  lemma {:induction false} CullKeepsAll(es: seq<Enemy>)
    requires forall i :: 0 <= i < |es| ==> es[i].y < CullLine
    ensures Cull(es) == es
  {
    if es != [] {
      CullKeepsAll(es[1..]);
    }
  }

  /** One enemy movement tick at the given game speed. */
  function MoveEnemies(es: seq<Enemy>, speed: real): (r: seq<Enemy>)
    ensures |r| <= |es|
    ensures forall e :: e in r ==> e.y < CullLine
    ensures forall e :: e in r ==> exists i :: 0 <= i < |es| && e == Translate(es[i], speed)
    ensures forall i :: 0 <= i < |es| && Translate(es[i], speed).y < CullLine ==>
      Translate(es[i], speed) in r
  {
    var moved := Advance(es, speed);
    assert forall i :: 0 <= i < |es| ==> moved[i] in moved;
    Cull(moved)
  }

  lemma {:induction false} AdvanceAppend(a: seq<Enemy>, b: seq<Enemy>, speed: real)
    ensures Advance(a + b, speed) == Advance(a, speed) + Advance(b, speed)
  {
    var l, r := Advance(a + b, speed), Advance(a, speed) + Advance(b, speed);
    assert |l| == |r|;
    forall i | 0 <= i < |l| ensures l[i] == r[i] {
      if i < |a| { assert (a + b)[i] == a[i]; } else { assert (a + b)[i] == b[i - |a|]; }
    }
  }

  /** The tick works enemy by enemy: moving a concatenation moves each part and keeps the
      parts in order. With the one-enemy case this pins the result down completely. */
  lemma MoveEnemiesAppend(a: seq<Enemy>, b: seq<Enemy>, speed: real)
    ensures MoveEnemies(a + b, speed) == MoveEnemies(a, speed) + MoveEnemies(b, speed)
  {
    AdvanceAppend(a, b, speed);
    CullAppend(Advance(a, speed), Advance(b, speed));
  }

  /** A single enemy survives the tick exactly when its translate is above the line. */
  lemma MoveOneEnemy(e: Enemy, speed: real)
    ensures MoveEnemies([e], speed) ==
            if e.y + e.dy * speed < CullLine then [Translate(e, speed)] else []
  {
    assert Advance([e], speed) == [Translate(e, speed)];
  }

  /** The enemy list after n movement ticks at a fixed speed. */
  function Ticks(es: seq<Enemy>, speed: real, n: nat): seq<Enemy> {
    if n == 0 then es else MoveEnemies(Ticks(es, speed, n - 1), speed)
  }

  /** Slowest possible descent per tick: dy is at least 0.5 and the speed at least 0.5. */
  const MinDescent: real := 0.25

  lemma DescentBound(dy: real, speed: real)
    requires dy >= 0.5 && speed >= 0.5
    ensures dy * speed >= MinDescent
  {
    assert dy * speed - 0.25 == (dy - 0.5) * speed + 0.5 * (speed - 0.5);
    assert (dy - 0.5) * speed >= 0.0;
  }

  /** One tick moves every surviving enemy down by at least the minimal descent. */
  lemma AdvanceDescends(es: seq<Enemy>, speed: real, lo: real)
    requires speed >= 0.5
    requires forall e :: e in es ==> e.y >= lo && e.dy >= 0.5
    ensures forall i :: 0 <= i < |es| ==>
      Advance(es, speed)[i].y >= lo + MinDescent && Advance(es, speed)[i].dy >= 0.5
  {
    forall i | 0 <= i < |es|
      ensures Advance(es, speed)[i].y >= lo + MinDescent && Advance(es, speed)[i].dy >= 0.5
    {
      assert es[i] in es;
      DescentBound(es[i].dy, speed);
    }
  }

  lemma MoveDescends(es: seq<Enemy>, speed: real, lo: real)
    requires speed >= 0.5
    requires forall e :: e in es ==> e.y >= lo && e.dy >= 0.5
    ensures forall e :: e in MoveEnemies(es, speed) ==> e.y >= lo + MinDescent && e.dy >= 0.5
  {
    var moved := Advance(es, speed);
    AdvanceDescends(es, speed, lo);
    assert forall e :: e in MoveEnemies(es, speed) ==> e in moved;
  }

  /** A list whose enemies have all reached the line is dropped whole. */
  lemma {:induction false} CullDropsAll(es: seq<Enemy>)
    requires forall i :: 0 <= i < |es| ==> es[i].y >= CullLine
    ensures Cull(es) == []
  {
    if es != [] {
      CullDropsAll(es[1..]);
    }
  }

  /** A translate keeps the identifier and the velocity and moves by the velocity times the speed. */
  lemma TranslateKeepsIdentity(e: Enemy, speed: real)
    ensures Translate(e, speed).id == e.id && Translate(e, speed).dx == e.dx && Translate(e, speed).dy == e.dy
    ensures Translate(e, speed).x == e.x + e.dx * speed && Translate(e, speed).y == e.y + e.dy * speed
  {
  }

  /** Every enemy that is still present after n ticks has descended at least n times the minimal descent. */
  lemma {:induction false} TicksDescend(es: seq<Enemy>, speed: real, n: nat, lo: real)
    requires speed >= 0.5
    requires forall e :: e in es ==> e.y >= lo && e.dy >= 0.5
    ensures forall e :: e in Ticks(es, speed, n) ==> e.y >= lo + MinDescent * (n as real) && e.dy >= 0.5
  {
    if n > 0 {
      var prev := lo + MinDescent * ((n - 1) as real);
      TicksDescend(es, speed, n - 1, lo);
      MoveDescends(Ticks(es, speed, n - 1), speed, prev);
      assert prev + MinDescent == lo + MinDescent * (n as real);
    }
  }

  /** Number of ticks after which no spawned enemy can remain: from y = -5 to the line at 110
      at no less than 0.25 per tick. */
  const Lifetime: nat := 460

  /** No enemy lives forever: enemies that entered at y >= -5 with dy >= 0.5 are all gone
      after 460 ticks at any speed the slider allows. */
  lemma EnemiesLeave(es: seq<Enemy>, speed: real, n: nat)
    requires speed >= 0.5 && n >= Lifetime
    requires forall e :: e in es ==> e.y >= -5.0 && e.dy >= 0.5
    ensures Ticks(es, speed, n) == []
  {
    var lo := -5.0 + MinDescent * ((n - 1) as real);
    TicksDescend(es, speed, n - 1, -5.0);
    AdvanceDescends(Ticks(es, speed, n - 1), speed, lo);
    CullDropsAll(Advance(Ticks(es, speed, n - 1), speed));
  }
}

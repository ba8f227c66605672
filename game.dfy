/** The component's mutable state as an object: each handler and interval body is a method that
    overwrites the fields, proved to produce the snapshot the matching step function describes. */
module FlyerGame {
  import opened Entities
  import opened Motion
  import opened Enemies
  import opened Collision
  import opened Phases

  class Game {
    var phase: Phase
    var player: Position
    var enemies: seq<Enemy>
    var score: nat
    var explosion: Option<Position>
    var speed: real

    /** The fields as one value. */
    function View(): Snapshot
      reads this
    {
      Snapshot(phase, player, enemies, score, explosion, speed)
    }

    ghost predicate Valid()
      reads this
    {
      Phases.Valid(View())
    }

    /** The initial values of the component's state hooks. */
    constructor ()
      ensures Valid() && View() == Initial()
    {
      phase := Menu;
      player := StartPosition;
      enemies := [];
      score := 0;
      explosion := None;
      speed := 1.0;
    }

    method StartGame()
      requires Valid()
      modifies this
      ensures Valid() && View() == Step(old(View()), PressStart)
    {
      phase := Playing;
      player := StartPosition;
      enemies := [];
      score := 0;
      explosion := None;
    }

    method ResetGame()
      requires Valid()
      modifies this
      ensures Valid() && View() == Step(old(View()), PressToMenu)
    {
      phase := Menu;
      enemies := [];
      explosion := None;
    }

    method OpenSettings()
      requires Valid()
      modifies this
      ensures Valid() && View() == Step(old(View()), PressSettings)
    {
      phase := Settings;
    }

    method CloseSettings()
      requires Valid()
      modifies this
      ensures Valid() && View() == Step(old(View()), PressBack)
    {
      phase := Menu;
    }

    method SetGameSpeed(value: real)
      requires Valid()
      requires MinSpeed <= value <= MaxSpeed
      modifies this
      ensures Valid() && View() == Step(old(View()), Slide(value))
    {
      speed := value;
    }

    /** One run of the movement interval for the keys held at that moment. */
    method TickMove(keys: set<string>)
      requires Valid()
      modifies this
      ensures Valid() && View() == Step(old(View()), MoveTick(keys))
    {
      if phase != Playing {
        return;
      }
      player := MovePlayer(player, keys);
    }

    /** One run of the spawn interval, appending the record it generated. */
    method Spawn(e: Enemy)
      requires Valid()
      requires Spawnable(e)
      modifies this
      ensures Valid() && View() == Step(old(View()), SpawnTick(e))
    {
      if phase != Playing {
        return;
      }
      enemies := enemies + [e];
    }

    /** One run of the enemy movement interval. */
    method TickEnemies()
      requires Valid()
      modifies this
      ensures Valid() && View() == Step(old(View()), EnemyTick)
    {
      if phase != Playing {
        return;
      }
      StepPreservesValid(View(), EnemyTick);
      enemies := MoveEnemies(enemies, speed);
    }

    /** One run of the collision interval: every enemy of the list seen at the start is tested
        against the player position seen at the start, and each hit records the explosion and
        ends the game. */
    method TickCollide()
      requires Valid()
      modifies this
      ensures Valid() && View() == Step(old(View()), CollideTick)
    {
      if phase != Playing {
        return;
      }
      var es, p := enemies, player;
      var i := 0;
      while i < |es|
        invariant 0 <= i <= |es|
        invariant enemies == es && player == p
        invariant score == old(score) && speed == old(speed)
        invariant Collides(es[..i], p) ==> phase == GameOver && explosion == Some(p)
        invariant !Collides(es[..i], p) ==> phase == Playing && explosion == old(explosion)
      {
        assert es[..i + 1] == es[..i] + [es[i]];
        CollidesAppend(es[..i], [es[i]], p);
        if Hits(es[i], p) {
          explosion := Some(p);
          phase := GameOver;
        }
        i := i + 1;
      }
      assert es[..i] == es;
    }

    /** One run of the score interval. */
    method TickScore()
      requires Valid()
      modifies this
      ensures Valid() && View() == Step(old(View()), ScoreTick)
    {
      if phase != Playing {
        return;
      }
      score := score + 1;
    }

    /** The delayed callback that removes the explosion marker. */
    method ClearExplosion()
      requires Valid()
      modifies this
      ensures Valid() && View() == Step(old(View()), ExplosionTimeout)
    {
      explosion := None;
    }
  }
}

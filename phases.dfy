/** The game's state as one value, the commands that change it, and the phase machine they form.
    Each command is one callback of the component: a button handler or one run of an interval body. */
module Phases {
  import opened Entities
  import opened Motion
  import opened Enemies
  import opened Collision

  datatype Phase = Menu | Playing | Settings | GameOver

  /** Everything the rules read or write. */
  datatype Snapshot = Snapshot(phase: Phase, player: Position, enemies: seq<Enemy>, score: nat,
                               explosion: Option<Position>, speed: real)

  datatype Command =
    | PressStart                 // "start" on the menu, "play again" on the game-over screen
    | PressToMenu                // "to menu" on the game-over screen
    | PressSettings              // "settings" on the menu
    | PressBack                  // "back" on the settings screen
    | Slide(value: real)         // the game-speed slider on the settings screen
    | MoveTick(keys: set<string>) // player movement interval, with the keys held at that moment
    | SpawnTick(enemy: Enemy)    // enemy spawn interval, with the record it generated
    | EnemyTick                  // enemy movement interval
    | CollideTick                // collision-check interval
    | ScoreTick                  // score interval
    | ExplosionTimeout           // the delayed clearing of the explosion marker

  const StartPosition: Position := Position(50, 80)
  const MinSpeed: real := 0.5
  const MaxSpeed: real := 3.0

  function Initial(): Snapshot {
    Snapshot(Menu, StartPosition, [], 0, None, 1.0)
  }

  /** startGame: a full reset into play. The speed setting is kept. */
  function StartGame(s: Snapshot): Snapshot {
    s.(phase := Playing, player := StartPosition, enemies := [], score := 0, explosion := None)
  }

  /** resetGame: back to the menu, forgetting enemies and the explosion but not score or player. */
  function ResetGame(s: Snapshot): Snapshot {
    s.(phase := Menu, enemies := [], explosion := None)
  }

  function MoveStep(s: Snapshot, keys: set<string>): Snapshot {
    if s.phase == Playing then s.(player := MovePlayer(s.player, keys)) else s
  }

  function SpawnStep(s: Snapshot, e: Enemy): Snapshot {
    if s.phase == Playing then s.(enemies := s.enemies + [e]) else s
  }

  function EnemyStep(s: Snapshot): Snapshot {
    if s.phase == Playing then s.(enemies := MoveEnemies(s.enemies, s.speed)) else s
  }

  /** checkCollisions: some enemy within the hit radius ends the game at the player's position. */
  function CollideStep(s: Snapshot): Snapshot {
    if s.phase == Playing && Collides(s.enemies, s.player)
    then s.(phase := GameOver, explosion := Some(s.player))
    else s
  }

  function ScoreStep(s: Snapshot): Snapshot {
    if s.phase == Playing then s.(score := s.score + 1) else s
  }

  function Step(s: Snapshot, c: Command): Snapshot {
    match c
    case PressStart => StartGame(s)
    case PressToMenu => ResetGame(s)
    case PressSettings => s.(phase := Settings)
    case PressBack => s.(phase := Menu)
    case Slide(v) => s.(speed := v)
    case MoveTick(keys) => MoveStep(s, keys)
    case SpawnTick(e) => SpawnStep(s, e)
    case EnemyTick => EnemyStep(s)
    case CollideTick => CollideStep(s)
    case ScoreTick => ScoreStep(s)
    case ExplosionTimeout => s.(explosion := None)
  }

  /** Which screen shows the button a command comes from. Interval and timeout callbacks are not
      tied to a screen: they may be called in any phase and check the phase themselves. */
  predicate Offered(p: Phase, c: Command) {
    match c
    case PressStart => p == Menu || p == GameOver
    case PressToMenu => p == GameOver
    case PressSettings => p == Menu
    case PressBack | Slide(_) => p == Settings
    case _ => true
  }

  /** An enemy record that the spawn interval can build: it enters at y = -5, anywhere across
      the field, drifting sideways by less than half a unit and falling 0.5 to 1 unit per tick. */
  predicate Spawnable(e: Enemy) {
    e.y == -5.0 && 0.0 <= e.x < 100.0 && -0.5 <= e.dx < 0.5 && 0.5 <= e.dy < 1.0
  }

  /** The record the spawn interval builds from the clock reading used as id and three
      draws of the random source. */
  function SpawnedEnemy(id: int, r1: real, r2: real, r3: real): Enemy {
    Enemy(id, r1 * 100.0, -5.0, (r2 - 0.5) * 1.0, 0.5 + r3 * 0.5)
  }

  /** Draws in [0, 1) give a spawnable enemy. */
  lemma SpawnedIsSpawnable(id: int, r1: real, r2: real, r3: real)
    requires 0.0 <= r1 < 1.0 && 0.0 <= r2 < 1.0 && 0.0 <= r3 < 1.0
    ensures Spawnable(SpawnedEnemy(id, r1, r2, r3))
  {
  }

  /** Every spawnable enemy is built from some draws in [0, 1), so Spawnable is exactly the
      set of records the spawn interval can produce. */
  lemma SpawnableIsSpawned(e: Enemy)
    requires Spawnable(e)
    ensures exists r1: real, r2: real, r3: real ::
      0.0 <= r1 < 1.0 && 0.0 <= r2 < 1.0 && 0.0 <= r3 < 1.0 && SpawnedEnemy(e.id, r1, r2, r3) == e
  {
    var r1, r2, r3 := e.x / 100.0, e.dx + 0.5, (e.dy - 0.5) * 2.0;
    assert SpawnedEnemy(e.id, r1, r2, r3) == e;
  }

  /** Arguments the callers can produce: slider values in its range and spawnable enemies. */
  predicate WellFormed(c: Command) {
    match c
    case Slide(v) => MinSpeed <= v <= MaxSpeed
    case SpawnTick(e) => Spawnable(e)
    case _ => true
  }

  predicate Enabled(s: Snapshot, c: Command) {
    Offered(s.phase, c) && WellFormed(c)
  }

  predicate IsTick(c: Command) {
    c.MoveTick? || c.SpawnTick? || c.EnemyTick? || c.CollideTick? || c.ScoreTick?
  }

  /** The state every reachable snapshot keeps: the player inside the field, the speed inside the
      slider's range, and every enemy between its entry line and the cull line, still falling. */
  predicate Valid(s: Snapshot) {
    && InField(s.player)
    && MinSpeed <= s.speed <= MaxSpeed
    && forall e :: e in s.enemies ==> -5.0 <= e.y < CullLine && e.dy >= 0.5
  }

  /** The six phase moves the screens and the collision check allow. */
  predicate Edge(a: Phase, b: Phase) {
    || (a == Menu && b == Playing)
    || (a == Menu && b == Settings)
    || (a == Settings && b == Menu)
    || (a == Playing && b == GameOver)
    || (a == GameOver && b == Playing)
    || (a == GameOver && b == Menu)
  }

  lemma InitialValid()
    ensures Valid(Initial()) && Initial().phase == Menu && Initial().score == 0
  {
  }

  /** An enabled command either keeps the phase or moves it along one of the six edges. */
  lemma StepFollowsEdges(s: Snapshot, c: Command)
    requires Enabled(s, c)
    ensures Step(s, c).phase == s.phase || Edge(s.phase, Step(s, c).phase)
  {
  }

  /** Every edge is taken by some enabled command; into GameOver only when an enemy is close. */
  lemma EdgesAreTaken(s: Snapshot, b: Phase)
    requires Edge(s.phase, b)
    requires b == GameOver ==> Collides(s.enemies, s.player)
    ensures exists c :: Enabled(s, c) && Step(s, c).phase == b
  {
    var c := if b == Playing then PressStart
             else if b == Settings then PressSettings
             else if b == GameOver then CollideTick
             else if s.phase == Settings then PressBack
             else PressToMenu;
    assert Enabled(s, c) && Step(s, c).phase == b;
  }

  /** The game ends only through the collision check, only from play, and only when some enemy
      is within the hit radius; the explosion is then at the player. */
  lemma GameOverOnlyByCollision(s: Snapshot, c: Command)
    requires s.phase != GameOver && Step(s, c).phase == GameOver
    ensures c == CollideTick && s.phase == Playing && Collides(s.enemies, s.player)
    ensures Step(s, c) == s.(phase := GameOver, explosion := Some(s.player))
  {
  }

  /** Outside play the interval callbacks change nothing. */
  lemma InertUnlessPlaying(s: Snapshot, c: Command)
    requires s.phase != Playing && IsTick(c)
    ensures Step(s, c) == s
  {
  }

  /** During play each score tick adds exactly one and touches nothing else. */
  lemma ScoreTickAddsOne(s: Snapshot)
    requires s.phase == Playing
    ensures Step(s, ScoreTick).score == s.score + 1
    ensures Step(s, ScoreTick).(score := s.score) == s
  {
  }

  /** A collision ends the game at the player's position without moving anything. */
  lemma CollisionEndsGame(s: Snapshot)
    requires s.phase == Playing && Collides(s.enemies, s.player)
    ensures var r := Step(s, CollideTick);
      r.phase == GameOver && r.explosion == Some(s.player) &&
      r.player == s.player && r.enemies == s.enemies && r.score == s.score
  {
  }

  /** Without an enemy inside the hit radius the collision check changes nothing. */
  lemma NoCollisionNoChange(s: Snapshot)
    requires !Collides(s.enemies, s.player)
    ensures Step(s, CollideTick) == s
  {
  }

  /** Starting resets the play state whatever it was before: same result from any two snapshots
      with the same speed setting. */
  lemma StartIsFullReset(s: Snapshot, t: Snapshot)
    requires s.speed == t.speed
    ensures Step(s, PressStart) == Step(t, PressStart)
    ensures Step(s, PressStart) == Initial().(phase := Playing, speed := s.speed)
  {
  }

  /** Going to the menu clears enemies and explosion and keeps score, player and speed. */
  lemma ResetKeepsScoreAndPlayer(s: Snapshot)
    ensures var r := Step(s, PressToMenu);
      r.phase == Menu && r.enemies == [] && r.explosion == None &&
      r.score == s.score && r.player == s.player && r.speed == s.speed
  {
  }

  /** Every well-formed command keeps the snapshot valid. */
  lemma StepPreservesValid(s: Snapshot, c: Command)
    requires Valid(s) && WellFormed(c)
    ensures Valid(Step(s, c))
  {
    match c
    case EnemyTick =>
      if s.phase == Playing {
        MoveDescends(s.enemies, s.speed, -5.0);
      }
    case _ =>
  }

  /** A run of commands from a snapshot. */
  function Run(s: Snapshot, cs: seq<Command>): Snapshot
    decreases |cs|
  {
    if cs == [] then s else Run(Step(s, cs[0]), cs[1..])
  }

  /** Each command of the run is enabled in the snapshot it is applied to. */
  predicate Admissible(s: Snapshot, cs: seq<Command>)
    decreases |cs|
  {
    cs == [] || (Enabled(s, cs[0]) && Admissible(Step(s, cs[0]), cs[1..]))
  }

  /** Validity is an invariant of every admissible run. */
  lemma {:induction false} RunPreservesValid(s: Snapshot, cs: seq<Command>)
    requires Valid(s) && Admissible(s, cs)
    ensures Valid(Run(s, cs))
    decreases |cs|
  {
    if cs != [] {
      StepPreservesValid(s, cs[0]);
      RunPreservesValid(Step(s, cs[0]), cs[1..]);
    }
  }

  /** Every admissible run moves the phase only along edges: its first and last phases are
      joined by a path of edges whose length is at most the run's. */
  ghost predicate Reachable(a: Phase, b: Phase, n: nat)
    decreases n
  {
    a == b || (n > 0 && exists m: Phase :: Edge(a, m) && Reachable(m, b, n - 1))
  }

  lemma {:induction false} RunFollowsEdges(s: Snapshot, cs: seq<Command>)
    requires Admissible(s, cs)
    ensures Reachable(s.phase, Run(s, cs).phase, |cs|)
    decreases |cs|
  {
    if cs != [] {
      var t := Step(s, cs[0]);
      StepFollowsEdges(s, cs[0]);
      RunFollowsEdges(t, cs[1..]);
      ReachableWeaken(t.phase, Run(s, cs).phase, |cs| - 1);
      if t.phase != s.phase {
        assert Edge(s.phase, t.phase) && Reachable(t.phase, Run(s, cs).phase, |cs| - 1);
      }
    }
  }

  lemma {:induction false} ReachableWeaken(a: Phase, b: Phase, n: nat)
    requires Reachable(a, b, n)
    ensures Reachable(a, b, n + 1)
    decreases n
  {
    if a != b {
      var m: Phase :| Edge(a, m) && Reachable(m, b, n - 1);
      ReachableWeaken(m, b, n - 1);
    }
  }

  /** The score never goes down in a run without a start: only startGame sets it back. */
  lemma {:induction false} ScoreMonotone(s: Snapshot, cs: seq<Command>)
    requires forall i :: 0 <= i < |cs| ==> cs[i] != PressStart
    ensures Run(s, cs).score >= s.score
    decreases |cs|
  {
    if cs != [] {
      ScoreMonotone(Step(s, cs[0]), cs[1..]);
    }
  }

  /** The score only grows during play: a run that never reaches Playing keeps it. */
  lemma {:induction false} ScoreFrozenOutsidePlay(s: Snapshot, cs: seq<Command>)
    requires s.phase != Playing
    requires forall i :: 0 <= i < |cs| ==> cs[i] != PressStart
    ensures Run(s, cs).score == s.score
    decreases |cs|
  {
    if cs != [] {
      var t := Step(s, cs[0]);
      assert t.phase != Playing && t.score == s.score;
      ScoreFrozenOutsidePlay(t, cs[1..]);
    }
  }
}

# Dodging flyer: verified model of the game rules

The game is a single React component. The player flies a plane inside a 100 × 100 field. Enemy
planes fall from the top. The game ends when an enemy comes within 5 units of the player. The
score counts bookkeeping ticks while the game is being played. This project models the rule layer
under the rendering:

- the four phases `menu`, `playing`, `settings` and `gameover`, and the buttons that move between them;
- the player's movement tick: two units per held direction key, clamped to the field;
- the enemies' movement tick: each enemy moves by its velocity times the game speed, and enemies at
  `y >= 110` are dropped;
- the collision check, which ends the game and records an explosion at the player's position;
- the score tick, the full reset of `startGame` and the partial reset of `resetGame`.

Layout:

- `entities.dfy` (module `Entities`) holds the `Position` and `Enemy` records and the field bounds.
  The player's coordinates are integers: they start at (50, 80) and change by whole steps.
  The enemies' coordinates, their velocities and the game speed are `real`.
- `motion.dfy` (module `Motion`) holds `MovePlayer` and the lemmas comparing it with clamped displacement.
- `enemies.dfy` (module `Enemies`) holds the map-then-filter `MoveEnemies`, with its order and
  membership lemmas. It also proves that after 460 enemy ticks at a speed ≥ 0.5, a list whose
  enemies entered at y ≥ -5 with dy ≥ 0.5 is empty.
- `collision.dfy` (module `Collision`) holds the distance test, written as squared distance < 25,
  with the proof that this agrees with distance < 5.
- `phases.dfy` (module `Phases`) describes the whole state as one value `Snapshot`. There is one
  step function per command and one `Step` that dispatches on the command. It also holds the
  validity invariant, the six allowed phase edges, and lemmas about single steps and whole runs.
- `game.dfy` (module `FlyerGame`) holds class `Game`, whose fields are the component's state hooks.
  Each method is one handler or one interval body. Each is proved to leave `View()` equal to
  `Step(old(View()), command)` and to keep `Valid()`. The collision check is a loop over the
  enemy list, as in the source's `forEach`.

Held keys are a `set<string>` passed to the movement tick. The spawned enemy record is a parameter
of `Spawn`. An interval firing is a method call.

## Model

| member | source | states |
|---|---|---|
| Motion.StepAxis | src/pages/Index.tsx:63-66 | no contract of its own; specified by Motion.StepAxisIsClampedDisplacement |
| Motion.MovePlayer | src/pages/Index.tsx:58-70 | a player inside the field stays inside; with neither key of an axis held that coordinate is unchanged; from inside the field each coordinate changes by at most 2 |
| Motion.StepAxisIsClampedDisplacement | src/pages/Index.tsx:63-66 | inside the field one axis moves to the clamped value of position plus the intended displacement (+2, -2 or 0). The one exception is holding both keys below 2, which ends at 2 because the backward clamp is applied before the forward step |
| Motion.MovePlayerIsClampedDisplacement | src/pages/Index.tsx:60-68 | the same characterisation for both coordinates of a move, in terms of the held key set |
| Motion.OpposedKeysAtLowWall | src/pages/Index.tsx:63-64 | holding "a" and "d" at x = 0 moves the player to x = 2 |
| Enemies.Translate | src/pages/Index.tsx:95-99 | no contract of its own; specified by Enemies.TranslateKeepsIdentity and Enemies.Advance |
| Enemies.Advance | src/pages/Index.tsx:95-99 | the map step keeps the length, and element i is enemy i translated |
| Enemies.Cull | src/pages/Index.tsx:100 | the filter step is no longer than its input, and an enemy survives it exactly when it was in the input with y < 110 |
| Enemies.CullAppend | src/pages/Index.tsx:100 | filtering a concatenation gives the concatenation of the filtered parts, so relative order is kept |
| Enemies.CullKeepsAll | src/pages/Index.tsx:100 | a list whose enemies are all above the line passes unchanged |
| Enemies.CullDropsAll | src/pages/Index.tsx:100 | a list whose enemies have all reached the line is emptied |
| Enemies.MoveEnemies | src/pages/Index.tsx:93-102 | the result is no longer than the input; every remaining enemy has y < 110 and is the translate of some input enemy; every input enemy whose translate is above the line is present |
| Enemies.TranslateKeepsIdentity | src/pages/Index.tsx:95-99 | a translate keeps id, dx and dy, and moves x and y by dx and dy times the game speed |
| Enemies.AdvanceAppend | src/pages/Index.tsx:94-99 | the map step distributes over concatenation |
| Enemies.MoveEnemiesAppend | src/pages/Index.tsx:94-101 | the whole tick distributes over concatenation, so enemies are handled one by one in list order |
| Enemies.MoveOneEnemy | src/pages/Index.tsx:95-100 | a single enemy becomes its translate when that is above the line, and is dropped otherwise |
| Enemies.DescentBound | src/pages/Index.tsx:86 | an enemy with dy ≥ 0.5 at a speed ≥ 0.5 falls at least 0.25 per tick |
| Enemies.AdvanceDescends | src/pages/Index.tsx:95-99 | the map step lowers every enemy by at least 0.25 and keeps dy ≥ 0.5 |
| Enemies.MoveDescends | src/pages/Index.tsx:93-102 | every survivor of one tick is at least 0.25 lower than the bound its predecessors satisfied |
| Enemies.TicksDescend | src/pages/Index.tsx:93-104 | after n ticks every remaining enemy is at least 0.25·n below its starting bound |
| Enemies.EnemiesLeave | src/pages/Index.tsx:80-104 | enemies that entered at y ≥ -5 with dy ≥ 0.5 are all gone after 460 movement ticks at any allowed speed |
| Collision.DistSq | src/pages/Index.tsx:118-120 | the squared distance between an enemy and the player is never negative |
| Collision.Hits | src/pages/Index.tsx:118-122 | no contract of its own; specified by Collision.SquaredTestMatchesDistance and Collision.ThresholdScenario |
| Collision.Collides | src/pages/Index.tsx:117-122 | no contract of its own; specified by Collision.CollidesAppend, Phases.CollisionEndsGame and Phases.NoCollisionNoChange |
| Collision.SquaredTestMatchesDistance | src/pages/Index.tsx:118-122 | comparing the squared distance with 25 decides the same as comparing the distance with 5 |
| Collision.ThresholdScenario | src/pages/Index.tsx:122 | an enemy at distance 4.9 hits; one at distance 5.1 does not |
| Collision.CollidesAppend | src/pages/Index.tsx:117 | a list collides exactly when one of its two parts does |
| Phases.StartGame | src/pages/Index.tsx:145-151 | no contract of its own; specified by Phases.StartIsFullReset |
| Phases.ResetGame | src/pages/Index.tsx:153-157 | no contract of its own; specified by Phases.ResetKeepsScoreAndPlayer |
| Phases.MoveStep | src/pages/Index.tsx:55-70 | no contract of its own; specified by Motion.MovePlayer, Phases.InertUnlessPlaying and Phases.StepPreservesValid |
| Phases.SpawnStep | src/pages/Index.tsx:78-88 | no contract of its own; specified by Phases.InertUnlessPlaying and Phases.StepPreservesValid |
| Phases.EnemyStep | src/pages/Index.tsx:93-102 | no contract of its own; specified by Enemies.MoveEnemies, Phases.InertUnlessPlaying and Phases.StepPreservesValid |
| Phases.CollideStep | src/pages/Index.tsx:113-128 | no contract of its own; specified by Phases.CollisionEndsGame, Phases.NoCollisionNoChange and Phases.GameOverOnlyByCollision |
| Phases.ScoreStep | src/pages/Index.tsx:135-140 | no contract of its own; specified by Phases.ScoreTickAddsOne and Phases.InertUnlessPlaying |
| Phases.Step | src/pages/Index.tsx:116-157 | no contract of its own; the dispatch of every command, specified by Phases.StepFollowsEdges, Phases.EdgesAreTaken and Phases.StepPreservesValid |
| Phases.Offered | src/pages/Index.tsx:246-345 | no contract of its own; which screen shows which button, used by Phases.StepFollowsEdges and Phases.EdgesAreTaken |
| Phases.Spawnable | src/pages/Index.tsx:81-87 | no contract of its own; specified by Phases.SpawnedIsSpawnable and Phases.SpawnableIsSpawned |
| Phases.SpawnedEnemy | src/pages/Index.tsx:81-87 | no contract of its own; the record built from the id and three random draws, specified by Phases.SpawnedIsSpawnable |
| Phases.SpawnedIsSpawnable | src/pages/Index.tsx:81-87 | draws in [0, 1) always give an enemy with y = -5, x in [0, 100), dx in [-0.5, 0.5) and dy in [0.5, 1) |
| Phases.SpawnableIsSpawned | src/pages/Index.tsx:81-87 | every such enemy comes from some draws in [0, 1), so the spawn precondition is exactly what the generator produces |
| Phases.InitialValid | src/pages/Index.tsx:22-29 | the initial state is in the menu with score 0 and satisfies the invariant |
| Phases.StepFollowsEdges | src/pages/Index.tsx:255-340 | a command whose button is on screen either keeps the phase or moves it along one of menu→playing, menu→settings, settings→menu, playing→gameover, gameover→playing, gameover→menu |
| Phases.EdgesAreTaken | src/pages/Index.tsx:255-340 | each of those six edges is taken by some enabled command. The edge into gameover needs an enemy within the hit radius |
| Phases.RunFollowsEdges | src/pages/Index.tsx:255-340 | over any admissible run of commands, the first and last phases are joined by a path of allowed edges no longer than the run |
| Phases.GameOverOnlyByCollision | src/pages/Index.tsx:122-124 | the phase becomes gameover only through the collision check, only from playing, only when some enemy is close, and the explosion is then at the player |
| Phases.InertUnlessPlaying | src/pages/Index.tsx:55-143 | outside playing, the move, spawn, enemy, collision and score ticks change nothing |
| Phases.ScoreTickAddsOne | src/pages/Index.tsx:136-140 | while playing, a score tick adds exactly one and changes nothing else |
| Phases.CollisionEndsGame | src/pages/Index.tsx:116-128 | while playing, an enemy within the hit radius makes the phase gameover with the explosion at the player; player, enemies and score stay as they were |
| Phases.NoCollisionNoChange | src/pages/Index.tsx:116-128 | with no enemy within the hit radius the collision check changes nothing |
| Phases.StartIsFullReset | src/pages/Index.tsx:145-151 | start gives playing, player (50, 80), no enemies, score 0 and no explosion, whatever the prior state; only the speed setting carries over |
| Phases.ResetKeepsScoreAndPlayer | src/pages/Index.tsx:153-157 | reset gives menu, no enemies and no explosion, and keeps score, player and speed |
| Phases.StepPreservesValid | src/pages/Index.tsx:58-102 | every well-formed command preserves the invariant: player in the field, speed in [0.5, 3], and every enemy with -5 ≤ y < 110 and dy ≥ 0.5 |
| Phases.RunPreservesValid | src/pages/Index.tsx:22-157 | the invariant holds after every admissible run from a valid state |
| Phases.ScoreMonotone | src/pages/Index.tsx:138-151 | in a run without start the score never decreases |
| Phases.ScoreFrozenOutsidePlay | src/pages/Index.tsx:135-143 | a run without start that begins outside playing leaves the score unchanged |
| FlyerGame.Game.constructor | src/pages/Index.tsx:22-29 | the object starts in the initial state: menu, player (50, 80), no enemies, score 0, no explosion, speed 1 |
| FlyerGame.Game.StartGame | src/pages/Index.tsx:145-151 | the fields become the full reset of the start step |
| FlyerGame.Game.ResetGame | src/pages/Index.tsx:153-157 | the fields become the partial reset of the reset step |
| FlyerGame.Game.OpenSettings | src/pages/Index.tsx:263 | the phase becomes settings and nothing else changes |
| FlyerGame.Game.CloseSettings | src/pages/Index.tsx:309 | the phase becomes menu and nothing else changes |
| FlyerGame.Game.SetGameSpeed | src/pages/Index.tsx:288-295 | the speed takes the slider's value in [0.5, 3] and nothing else changes |
| FlyerGame.Game.TickMove | src/pages/Index.tsx:55-74 | while playing the player takes one movement step for the held keys; otherwise nothing changes |
| FlyerGame.Game.Spawn | src/pages/Index.tsx:80-89 | while playing a spawnable enemy is appended at the end of the list; otherwise nothing changes |
| FlyerGame.Game.TickEnemies | src/pages/Index.tsx:93-102 | while playing the enemy list becomes its moved-and-culled version at the current speed |
| FlyerGame.Game.TickCollide | src/pages/Index.tsx:113-128 | the loop over the enemies leaves the state the collision step describes |
| FlyerGame.Game.TickScore | src/pages/Index.tsx:135-140 | while playing the score goes up by one; otherwise nothing changes |
| FlyerGame.Game.ClearExplosion | src/pages/Index.tsx:125 | the explosion marker is removed and nothing else changes |

## Left out

- Rendering, layout and styling, including the starfield's random placement: these are presentation only.
- The keyboard listeners are left out because they are DOM input. The held keys reach the movement tick as a set of key names.
- Interval and timeout scheduling is left out: the 16 ms and 100 ms periods, the spawn period of 2000 / speed ms, the 1000 ms explosion delay, and React's effect re-subscription. Each callback is a command applied atomically to the current state.
  The model does not say when or how often a callback fires. Like the source, it lets a late explosion timeout clear the marker in any phase.
- The React state updates are applied in order, each to the latest state. The model does not capture React batching, or a callback whose captured values are out of date.
- Random enemy generation and `Date.now()` ids are nondeterministic host calls. `Spawn` takes the generated record as a parameter. Two enemies spawned in the same millisecond would share an id, and the model does not constrain ids.
- IEEE floating point is not modelled: enemy coordinates, velocities and the game speed are exact reals.
- The sound switch is left out because its value affects no rule.
- FlyerGame.Game.SetGameSpeed: the slider's 0.1 step is not modelled. Any real in [0.5, 3] is accepted.
- FlyerGame.Game.Spawn: the precondition bounds the record to what the spawn interval can build: y = -5, x in [0, 100), dx in [-0.5, 0.5), dy in [0.5, 1). Phases.SpawnableIsSpawned shows these are exactly the records Phases.SpawnedEnemy builds. It says nothing about the id.
- The repository's other two games, a racer and a platformer, are not part of this model. Neither are
  their thrust and friction, particles, health and mana, action locks, pause and inventory screens,
  or best-time storage. In this component, movement is a fixed 2 units per held key with no
  acceleration. Leaving for the menu keeps the score and the player position.

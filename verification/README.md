# Space invader game core in Dafny

This project models the game logic of a small Kivy arcade shooter. The player
ship fires bullets at waves of enemy ships that fly down the screen.
Three parts of the game are modelled:

- **The exit-trajectory solver `Actor.move`** (`space_invader/spaceship.py`).
  Every actor (ship or bullet) flies in a straight line until it is `MARGIN`
  (100) pixels beyond its parent's edge, or down to `min_y`. `move` computes
  an exit time for each axis. The time is infinite when the speed on that
  axis is at most `EPS` (1e-8). It also computes the target centre coordinate
  on each axis. The axis with the strictly earlier exit time wins, so a tie
  goes to Y. The other axis's centre is extrapolated along the velocity.
  Module `Motion` (`motion.dfy`) does this over `real`, with `Time =
  Finite(t) | Infinite` for the exit time.
- **`SpaceShipHive`** (`spaceship.py`): a list of ships. `collide_ammo`
  answers "is any member hit?" and stops at the first hit. Module `Hive`
  (`hive.dfy`) takes the per-ship test as a parameter.
- **The `ActorsContainer` bookkeeping** (`space_invader/engine.py`). The
  container holds the player, three actor lists (player bullets, enemy
  bullets, enemies), the lives, the score and the widget tree of actors on
  screen. Its operations are `clear_widgets`, the `player_lives` observer,
  `init_game`, the `add_*`/`remove_*` pairs, and the score and spawn rules
  of `update_game`. Module `Engine` (`engine.dfy`) models these as pure
  functions over an immutable `Container`. `update_game` is a method, whose
  nested loops mirror the source. Module `Pairs` (`pairs.dfy`) counts
  colliding (bullet, enemy) pairs. Module `Results` (`results.dfy`) holds
  `Option` and `Result`.

A Python object's identity becomes an `id` allocated from `nextId`.
`Engine.Valid` is the invariant every operation keeps: each list holds actors
of its own kind, no widget appears twice, and every id in use is below
`nextId`. Because of it, `list.remove` and `remove_widget` act on the object
meant. Code outside the modelled files is turned into parameters:

- the wall clock (`time()`) is `now`;
- the random draws (`randint`, `uniform`) are a `Draw` record;
- the collision test (`check_collision`) is a `collide` predicate;
- a ship's own `collide_ammo` is a `hit` predicate.

## Model

| member | source | states |
|---|---|---|
| Motion.Divisor | space_invader/spaceship.py:31-37 | on an axis faster than `EPS` the divisor `velocity + EPS` is never zero and has the velocity's sign |
| Motion.AxisExit | space_invader/spaceship.py:34-45 | exit time is infinite exactly when the axis moves no faster than `EPS`; otherwise it is the later of the two edge-crossing times, a body moving at `velocity + EPS` from where it starts would be wholly past the boundary it heads for at that time (the animation itself ends with the centre at the target, see `Motion.Move`), and it is positive whenever the actor is still short of that boundary |
| Motion.TargetX | space_invader/spaceship.py:38-41 | the x target is `width + MARGIN` moving right and `-MARGIN` moving left (for a non-negative width); in general at least `MARGIN` moving right, in `[-MARGIN, 0]` moving left |
| Motion.TargetY | space_invader/spaceship.py:46-49 | the y target is `abs(height + MARGIN)` moving up and `abs(min_y)` moving down, so `height + MARGIN` and `min_y` for the usual non-negative values |
| Motion.Move | space_invader/spaceship.py:26-65 | raises without a parent, and raises when neither axis moves; otherwise the duration is the earlier exit time, a tie goes to Y, the winning axis's centre is sent to its target, and each axis's centre is in the animation exactly when that axis moves, the other one extrapolated by `duration * velocity`; an actor inside the extended arena gets a positive duration |
| Motion.MoveOrRest | space_invader/spaceship.py:42-65 | corrected `move`: fails only without a parent, leaves a still actor at rest, and otherwise schedules exactly what `Move` does |
| Motion.StillActorCrashes | space_invader/spaceship.py:42-64 | a still actor with a parent makes `Move` raise the unbound `new_y` error, where `MoveOrRest` leaves it at rest |
| Hive.CollideAmmo | space_invader/spaceship.py:105-110 | true exactly when some ship reports a hit; the ships asked are those up to and including the first hit, all of them on a miss |
| Hive.Len | space_invader/spaceship.py:102-103 | `__len__` is 0, so the hive is falsy, exactly when it holds no ship |
| Hive.Clear | space_invader/spaceship.py:112-113 | after `clear` the hive's `__len__` is 0 |
| Hive.ClearedHiveMisses | space_invader/spaceship.py:105-113 | a cleared (empty) hive is never hit |
| Hive.Join | space_invader/spaceship.py:100 | the `hive` list is filled by callers outside the modelled files; appending one ship grows `__len__` by one and keeps the other ships in order |
| Hive.JoinedHit | space_invader/spaceship.py:100-110 | with one more ship the hive is hit exactly when it was already hit or the new ship is hit |
| Pairs.HitsTranspose | space_invader/engine.py:79-82 | the number of colliding (bullet, enemy) pairs is the same whichever list is the outer loop |
| Pairs.HitsBound | space_invader/engine.py:79-82 | a tick's colliding pairs number at most bullets times enemies |
| Engine.UpdateGame | space_invader/engine.py:71-96 | the score grows by 10 for every colliding (player bullet, enemy) pair, so it never decreases; at most one enemy is appended, exactly when fewer are listed than `int(elapsed / 10) + 1`, and never beyond that target; the spawned enemy sits `height + 50` with x in `[0, width]`, vertical speed in `[-2, -1]` and horizontal in `[-2, 2]`, its widget goes in front of the others and exactly one id is used; nothing else changes and the invariant is kept |
| Engine.Trunc | space_invader/engine.py:90 | `int()` of a float truncates towards zero, for negative elapsed times too |
| Engine.SpawnTargetInPeriod | space_invader/engine.py:90 | during the k-th ten seconds of play `k + 1` enemies are allowed |
| Engine.ClearWidgets | space_invader/engine.py:44-53 | with no argument all widgets go and the three actor lists are emptied, while debris, score, lives and player stay; with children, exactly those children leave the screen and exactly the player bullets among them leave `pbullets`, the survivors of both lists keeping their order, while enemies and enemy bullets stay listed |
| Engine.DropOne | space_invader/engine.py:52-53 | one loop step: the child leaves `pbullets` if it is listed there, and nothing else does |
| Engine.DropPlayerBullets | space_invader/engine.py:50-53 | the bullets left are those not among the children removed, and none is repeated |
| Engine.KeptBullets | space_invader/engine.py:50-53 | the player bullets whose widget is not among the children, in their order, are exactly the bullets not removed |
| Engine.DropPlayerBulletsInOrder | space_invader/engine.py:50-53 | in a bullet list without repeats, the loop leaves the other bullets in their order |
| Engine.RemoveWidgets | space_invader/engine.py:45 | after removing a list of children, the widgets left are exactly those not among them |
| Engine.KeptWidgets | space_invader/engine.py:45 | the widgets not among the children, in their order on screen, are exactly the widgets not removed |
| Engine.RemoveWidgetsInOrder | space_invader/engine.py:45 | on a screen without repeats, removing the children one by one leaves the other widgets in their order |
| Engine.OnPlayerLives | space_invader/engine.py:55-60 | at zero lives the player's widget leaves and a "You died!" label is shown in front; at any other value nothing changes |
| Engine.SetPlayerLives | space_invader/engine.py:55-60 | assigning lives sets them and never clears the `player` reference; going from non-zero to 0 leaves the widgets `remove_player` leaves, with the "You died!" label in front, and uses one id; any other assignment changes nothing else |
| Engine.InitGame | space_invader/engine.py:62-69 | does nothing unless lives are 0; then lives come from `start_lives`, score is 0, the start time is now, the actor lists are empty, and the only widget is a new player at `(width / 2, 30)`; the options, size and debris stay, one id is used, and the invariant is established |
| Engine.AddEnemy | space_invader/engine.py:98-102 | appends exactly one fresh enemy to `enemies` and puts it in front of the widgets; the other lists stay as they were |
| Engine.RemoveEnemy | space_invader/engine.py:104-106 | raises exactly when the enemy is not listed; otherwise the first occurrence leaves `enemies` and the widget leaves the screen |
| Engine.AddEnemyBullet | space_invader/engine.py:108-112 | appends exactly one fresh bullet to `ebullets` and shows it; the other lists stay as they were |
| Engine.RemoveEnemyBullet | space_invader/engine.py:114-116 | raises exactly when the bullet is not listed; otherwise the first occurrence leaves `ebullets` and the screen |
| Engine.AddPlayer | space_invader/engine.py:118-121 | the `player` reference becomes a fresh player ship that is shown; the actor lists stay as they were |
| Engine.RemovePlayer | space_invader/engine.py:123-125 | does nothing without a player; otherwise only the player's widget leaves, the other widgets keep their order, and the `player` reference is kept |
| Engine.AddPlayerBullet | space_invader/engine.py:127-131 | appends exactly one fresh bullet to `pbullets` and shows it; the other lists stay as they were |
| Engine.RemovePlayerBullet | space_invader/engine.py:133-135 | raises exactly when the bullet is not listed; otherwise the first occurrence leaves `pbullets` and the screen |
| Engine.AddThenRemoveEnemy | space_invader/engine.py:98-106 | removing the enemy just added gives back the container, except that its id stays used |
| Engine.AddThenRemoveEnemyBullet | space_invader/engine.py:108-116 | removing the enemy bullet just added gives back the container, except for `nextId` |
| Engine.AddThenRemovePlayerBullet | space_invader/engine.py:127-135 | removing the player bullet just added gives back the container, except for `nextId` |
| Engine.RemoveFirst | space_invader/engine.py:105 | `list.remove` on a present element: the list is one element shorter and its multiset loses exactly that element |
| Engine.FirstIndex | space_invader/engine.py:105 | the position `list.remove` acts on holds the element |
| Engine.FirstIndexIsFirst | space_invader/engine.py:105 | no position before it holds the element |
| Engine.RemoveFirstAt | space_invader/engine.py:105 | `list.remove` drops the first occurrence and nothing else: the elements before and after it stay, in their order |
| Engine.RemoveFirstDistinct | space_invader/engine.py:105 | in a list without repeats, `list.remove` takes out exactly the element removed and adds no repeats |
| Engine.Fresh | space_invader/engine.py:31-42 | a new container has no player, empty actor lists and no widgets, score 0, start time 0, no lives and one starting life in the options, the given size, and satisfies the invariant |
| Engine.ActorOnStop | space_invader/spaceship.py:80-83 | when its animation ends an actor leaves the screen if it is on it, the other widgets keeping their order, but it stays in its actor list |

## Left out

- The per-tick `update()` of every child that has one (`engine.py:73-77`) is left out. It is duck-typed widget traversal into code that is not part of this model.
- The `check_collision` calls of enemy bullets and enemies against the player (`engine.py:84-88`) are left out. Their effects live in `enemies.py`, `playership.py` and `bullets.py`, which are not part of this model. The model treats these calls as not changing the container.
- `check_collision` is a pure predicate here. In the source it may remove actors from the lists while they are being iterated. The score is counted over the lists as they were at the start of the tick.
- Kivy's `Animation` (the time-driven tween, `on_start`, `on_progress`, `cancel_all`) is left out. `Move` yields only the target properties and the duration it would animate with.
- `SpaceGame` and `ShooterGame` (`engine.py:138-170`) are left out. They handle screen transitions, the 60 Hz `Clock` schedule, menu button text and music.
- The ship and bullet classes and `SpaceShip.collide_ammo` for single ships are in files that are not part of this model. An actor is only its constructor arguments, and the `space_game` back-reference is dropped.
- The label's font size and boldness are not modelled. Only its text is kept.
- `init_game` reads `time()` twice. Both reads are one parameter `now`.
- `randint(0, self.width)` is an integer draw `Draw.x` with `0 <= x <= width`. Python rejects a float width at that call (any float from Python 3.12 on, where `randrange` takes only integers; a non-integral one before), and the model does not reproduce that error.
- IEEE floats are not modelled: no rounding, no NaN, no signed zero. Coordinates and times are reals, and `math.inf` is the `Infinite` constructor.
- `debris` is carried in the container but never touched by the modelled code.
- The model follows the code on these points. The score counts every colliding (bullet, enemy) pair, with no single credit per enemy. `init_game` checks only `player_lives == 0`. Equal exit times go to the Y branch. A stationary actor makes `move` raise rather than stay put; see Findings.
- Engine.ClearWidgets: assumes Kivy 2.1.0 or later and a `children` argument that is a list other than the container's own `children` list. Called as `clear_widgets(self.children)`, Kivy's `remove_widget` empties that same list in place, so the loop at `engine.py:51` walks an empty list and no player bullet leaves `pbullets`; the model, treating the argument as a value, drops every player bullet on screen. Before Kivy 2.1.0, `clear_widgets([])` removed every widget like `None` while the lists stayed; the model removes nothing. No call in `engine.py` passes either argument.

## Findings

| source | as written | input that shows it | evidently intended | confidence | as-written member | corrected member |
|---|---|---|---|---|---|---|
| space_invader/spaceship.py:42-64 | when both `abs(velocity_x)` and `abs(velocity_y)` are at most `EPS`, both exit times stay infinite; the else-branch then reads `new_y`, which was never assigned, and raises `UnboundLocalError` | an actor at `(10, 20)`, size 5 by 5, velocity `(0, 0)`, in an 800 by 600 parent | an actor at rest never leaves, so it gets no exit animation and stays where it is | medium, not executed | Motion.Move, Motion.StillActorCrashes | Motion.MoveOrRest |

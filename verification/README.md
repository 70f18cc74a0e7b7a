# MurderDesk player controller, modelled in Dafny

This project models the per-tick character controller of the MurderDesk isometric game:
`Player.update(delta, map)` and the player's initial fields and spawn setter. Each tick does
one of two things, depending on whether the player is moving:

- **Idle.** The controller polls the keys W, S, D and A in that fixed order. The first key
  held sets the facing (left-up, right-down, right-up, left-down) and a candidate tile one
  step along the x or the y tile axis. If the map says the candidate tile is free and it
  differs from the current tile, the move is committed. The tile is updated at once, the
  current render position becomes the origin, the candidate's isometric render position
  becomes the target, and the player starts moving. A blocked key only turns the player;
  with no key held nothing changes.
- **Moving.** Keys are not read. Each axis advances by its full span times
  `delta / MOVEMENT_SPEED` (0.5 s per tile) and is snapped to the target if it went past.
  The move ends exactly when both axes sit on the target.

After either branch, the controller picks one of eight clips from the facing and the moving
flag and advances the animation clock. The clock restarts at 0 once it passes 0.5 s.

The model is a pure function `Player.Step(state, delta, pressedKeys, collides, iso, topCorner)`
over an immutable `Player.State`. The map's collision query (`checkCollisionTile`), its
tile-to-isometric conversion (`convertMapToIsometricCoordinates`) and its top corner are
parameters. They are not interpreted, because `GameMap` is not part of this model. Render
positions are `real`. Tile coordinates are Java `int`s, and the `±1` on a tile coordinate
wraps around at the ends of the 32-bit range (`Int32.Wrap`).

Modules: `Wrappers` (Option), `Int32`, `Intent` (key priority, facing, tile offsets,
candidate tile), `Animation` (clips, clip selection, state clock), `Player` (state, idle
branch, interpolation, `Step`, initial state, spawn setter), `Movement` (whole moves over
several ticks).

Behaviour of the code worth noting:

- Interpolation is incremental. Each tick adds `span * delta / 0.5` to the position. It does
  not recompute `origin + fraction * span` from an interpolation clock, and there is no such
  clock. `Movement.Progress` recovers the fraction view as an invariant.
- The animation clock is not reset when the clip changes. It is reset to 0 (not wrapped
  modulo the cycle) once it exceeds 0.5.
- The move duration is a hard-coded constant (`Player.MovementSpeed`).
- There is no screen-to-tile inverse in the controller, so there is no isometric round trip
  to state.
- A fresh player faces right-down and is idle, but holds the left-down walk clip. The first
  tick corrects this (`Player.FirstTickAlignsClip`).

## Model

| member | source | states |
|---|---|---|
| Int32.Wrap | MurderDesk/src/net/groupfive/murderdesk/Player.java:120-136 | the result is the 32-bit `int` congruent to the exact value modulo 2^32, and equals it when it is in range |
| Int32.UnitApartInside | MurderDesk/src/net/groupfive/murderdesk/Player.java:120-136 | away from the ends of the `int` range, being one step apart modulo 2^32 is the same as differing by exactly 1 |
| Intent.Chosen | MurderDesk/src/net/groupfive/murderdesk/Player.java:120-136 | a key is chosen iff some key is held; the chosen key is held, and no held key has higher priority in the order W, S, D, A |
| Intent.ChosenIsUnique | MurderDesk/src/net/groupfive/murderdesk/Player.java:120-136 | any held key of highest priority is the chosen one, so the priority order decides every combination of keys |
| Intent.Facing | MurderDesk/src/net/groupfive/murderdesk/Player.java:120-136 | every key sets one of the four facing constants 0..3 |
| Intent.FacingInjective | MurderDesk/src/net/groupfive/murderdesk/Player.java:34-37 | distinct keys set distinct facings |
| Intent.Offset | MurderDesk/src/net/groupfive/murderdesk/Player.java:120-136 | each key moves exactly one tile axis by exactly 1: W and S move x, D and A move y; W and D decrease their axis |
| Intent.Resolve | MurderDesk/src/net/groupfive/murderdesk/Player.java:116-136 | with no key held the candidate is the current tile and facing; otherwise it is the winning key's facing and offset tile; the candidate differs from the current tile iff a key is held, and then on exactly one axis by one step |
| Animation.ClipDeterminedByFacingAndWalk | MurderDesk/src/net/groupfive/murderdesk/Player.java:44-55 | facing and walk/idle identify a clip: the eight clips are distinct |
| Animation.SelectClip | MurderDesk/src/net/groupfive/murderdesk/Player.java:177-204 | for a facing in 0..3 the clip shows that facing and walks iff the player moves; any other facing keeps the current clip |
| Animation.AdvanceClock | MurderDesk/src/net/groupfive/murderdesk/Player.java:206-211 | the clock becomes time + delta iff that sum is at most 0.5, else 0; it never exceeds 0.5 and is non-negative when the sum is |
| Animation.ClockStaysInCycle | MurderDesk/src/net/groupfive/murderdesk/Player.java:206-211 | from a clock in [0, 0.5] with a non-negative delta, the clock stays in [0, 0.5] |
| Player.Init | MurderDesk/src/net/groupfive/murderdesk/Player.java:106-109 | a fresh player is idle, faces right-down (1), holds the walk-left-down clip, has clock 0 and rests on its (zero) target |
| Player.SetBoundingBox | MurderDesk/src/net/groupfive/murderdesk/Player.java:223-228 | spawn placement sets position and size from the rectangle and changes nothing else |
| Player.IdleTick | MurderDesk/src/net/groupfive/murderdesk/Player.java:114-152 | the facing becomes the candidate's; a move is committed iff a key is held and the candidate tile does not collide; a commit takes the candidate tile, the current position as origin and the tile's render position as target; otherwise only the facing changes; the position never changes |
| Player.Snap | MurderDesk/src/net/groupfive/murderdesk/Player.java:160-170 | the clamp returns the position or the target; it snaps onto the target exactly when the position reached or passed it in the direction of travel, and never for a zero-span axis |
| Player.SnapTowardTarget | MurderDesk/src/net/groupfive/murderdesk/Player.java:157-170 | a position between origin and target, stepped towards the target and clamped, stays between them; an axis on its target stays there |
| Player.Glide | MurderDesk/src/net/groupfive/murderdesk/Player.java:157-170 | with a non-negative delta an axis between origin and target stays between them (no overshoot); a zero-span axis stays put; an axis on its target stays there |
| Player.Interpolate | MurderDesk/src/net/groupfive/murderdesk/Player.java:154-175 | only the position and the moving flag change; the move ends iff both axes are on the target; each axis between origin and target stays there |
| Player.Step | MurderDesk/src/net/groupfive/murderdesk/Player.java:112-213 | while moving, tile, facing, origin and target are unchanged; a move ends only on the target; an idle tick leaves the position unchanged; after the tick the clip matches the facing and moving flag (or is kept for a facing outside 0..3); the clock stays at most 0.5 |
| Player.InitValid | MurderDesk/src/net/groupfive/murderdesk/Player.java:106-109 | the fresh player satisfies the between-ticks invariant, also after spawn placement |
| Player.FirstTickAlignsClip | MurderDesk/src/net/groupfive/murderdesk/Player.java:106-109 | the fresh player's clip disagrees with its facing and motion; after one tick it agrees |
| Player.StepPreservesValid | MurderDesk/src/net/groupfive/murderdesk/Player.java:112-213 | every tick with a non-negative delta keeps the facing in 0..3, the clock in [0, 0.5] and a moving player between origin and target on both axes |
| Player.MovingIgnoresInput | MurderDesk/src/net/groupfive/murderdesk/Player.java:114-175 | while moving, the tick's result does not depend on the keys held, the collision query, the isometric conversion or the top corner |
| Player.NoKeyNoMove | MurderDesk/src/net/groupfive/murderdesk/Player.java:114-152 | an idle tick with no key held keeps the player idle, with the same tile, position and facing |
| Player.BlockedTurnsInPlace | MurderDesk/src/net/groupfive/murderdesk/Player.java:120-152 | an idle tick whose candidate collides keeps the player idle on the same tile and position, turned to the winning key's facing |
| Player.CommitIsOneTile | MurderDesk/src/net/groupfive/murderdesk/Player.java:120-151 | a committed move changes exactly one tile axis by one step, starts at the current position and selects a walk clip |
| Movement.GlideAdvances | MurderDesk/src/net/groupfive/murderdesk/Player.java:157-170 | an axis at fraction p of its span lands at fraction min(p + delta/0.5, 1) after one tick |
| Movement.AxisTick | MurderDesk/src/net/groupfive/murderdesk/Player.java:157-170 | at progress p + delta/0.5 of at least 1 the axis is on its target; below 1 it is at that fraction of its span, and for a non-zero span not yet on the target |
| Movement.StepAdvancesProgress | MurderDesk/src/net/groupfive/murderdesk/Player.java:157-174 | a moving tick raises the progress by delta/0.5; at progress 1 the player is idle on the target; a move with non-zero span keeps moving below progress 1 |
| Movement.SettledStays | MurderDesk/src/net/groupfive/murderdesk/Player.java:114-152 | an idle player resting on its target, with no key held, stays there with the same tile over any number of ticks |
| Movement.MoveCompletes | MurderDesk/src/net/groupfive/murderdesk/Player.java:157-174 | once the non-negative ticks of a move add up to the time still needed, the player is idle exactly on the target, on the committed tile |
| Movement.MoveInProgress | MurderDesk/src/net/groupfive/murderdesk/Player.java:157-174 | while those ticks add up to less, a move with non-zero span is still moving, at the matching fraction of the same origin-to-target span, with tile, facing, origin and target unchanged |
| Movement.OneTileMove | MurderDesk/src/net/groupfive/murderdesk/Player.java:138-174 | a committing tick followed by ticks with no key held adding up to 0.5 s ends idle on the candidate tile, at exactly that tile's render position |

## Left out

- Texture loading, `TextureRegion.split` and `Animation` construction in the constructor (Player.java:86-105): these are graphics library calls. The clips are modelled only by their identity.
- Frame lookup with `getKeyFrame`, the ping-pong play mode, and `draw` with its sprite offsets (Player.java:215-221): these are rendering.
- Polling with `Gdx.input.isKeyPressed`: the keys held during a tick are the `pressed` parameter.
- The `System.out` logging of a committed move (Player.java:149-150).
- `GameMap`: collision storage and the coordinate conversions are not part of this model. They are the `collides` and `iso` parameters, with nothing assumed about them.
- Java `float` rounding: positions, delta and the clock are `real`. The exact `==` test that ends a move (Player.java:172) is therefore exact equality of reals.
- Getters and `dispose` (Player.java:230-251): accessors and resource release.
- The spawn computation in `PlayScreen` (PlayScreen.java:115-140): it depends entirely on `GameMap` conversions. Only `setBoundingBox`, which it calls, is modelled.
- The desktop launcher `Main.java`: window, font and canvas setup.
- Movement.MoveCompletes: the ticks after the commit hold no key. Once the move ends, a held key would start the next move, so the end state is stated for key-free ticks only.
- Movement.OneTileMove: the same holds here. The ticks after the committing tick hold no key, for the reason given for MoveCompletes.

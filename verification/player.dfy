/**
 The per-tick character controller (Player.update) as a pure step function over
 an immutable state record. The map's collision query and its tile-to-isometric
 conversion are parameters, as is the map's top corner.
 */
module Player {
  import opened Int32
  import opened Intent
  import opened Animation

  /** A point in render space. */
  datatype Point = Point(x: real, y: real)

  /** A spawn rectangle: bottom-left corner and size. */
  datatype Rect = Rect(x: real, y: real, width: real, height: real)

  /**
   Everything `update` reads or writes. `x`, `y` are the render position;
   (`originalX`, `originalY`) and (`newX`, `newY`) are the ends of the current
   one-tile move; `direction` is the facing constant; `stateTime` is the clock.
   */
  datatype State = State(
    x: real, y: real,
    width: real, height: real,
    tileX: int32, tileY: int32,
    originalX: real, originalY: real,
    newX: real, newY: real,
    moving: bool,
    direction: int,
    clip: Clip,
    stateTime: real)

  /** Seconds one tile transition takes. */
  const MovementSpeed: real := 0.5

  /** `v` lies between `a` and `b`, inclusive, in either order. */
  predicate Between(v: real, a: real, b: real)
  {
    (a <= v <= b) || (b <= v <= a)
  }

  /** The fields a fresh player has: Java defaults plus the constructor's assignments. */
  function Init(): (s: State)
    ensures !s.moving && s.direction == RightDown
    ensures s.clip == WalkLD && s.stateTime == 0.0
    ensures s.x == s.newX && s.y == s.newY
  {
    State(0.0, 0.0, 0.0, 0.0, 0, 0, 0.0, 0.0, 0.0, 0.0, false, RightDown, WalkLD, 0.0)
  }

  /** Spawn placement: take position and size from the rectangle and nothing else. */
  function SetBoundingBox(s: State, box: Rect): (r: State)
    ensures r.x == box.x && r.y == box.y
    ensures r.width == box.width && r.height == box.height
    ensures r == s.(x := r.x, y := r.y, width := r.width, height := r.height)
  {
    s.(x := box.x, y := box.y, width := box.width, height := box.height)
  }

  /** The render position of a tile: the top corner shifted by the tile's isometric offset, y pointing down. */
  function Target(tileX: int32, tileY: int32, iso: (int, int) -> Point, top: Point): (p: Point)
  {
    Point(top.x + iso(tileX, tileY).x, top.y - iso(tileX, tileY).y)
  }

  /**
   The idle branch: read the keys, turn to the chosen facing, and commit a move
   when the candidate tile is free and differs from the current one.
   */
  function IdleTick(s: State, pressed: set<Key>, collides: (int, int) -> bool,
                    iso: (int, int) -> Point, top: Point): (r: State)
    requires !s.moving
    ensures var c := Resolve(pressed, s.tileX, s.tileY, s.direction);
            && r.direction == c.direction
            && (r.moving <==> pressed != {} && !collides(c.tileX, c.tileY))
            && (r.moving ==>
                  && r.tileX == c.tileX && r.tileY == c.tileY
                  && r.originalX == s.x && r.originalY == s.y
                  && Point(r.newX, r.newY) == Target(c.tileX, c.tileY, iso, top))
    ensures !r.moving ==> r == s.(direction := r.direction)
    ensures r.x == s.x && r.y == s.y
    ensures r.clip == s.clip && r.stateTime == s.stateTime
    ensures r.width == s.width && r.height == s.height
  {
    var c := Resolve(pressed, s.tileX, s.tileY, s.direction);
    if !collides(c.tileX, c.tileY) && (s.tileX != c.tileX || s.tileY != c.tileY) then
      var t := Target(c.tileX, c.tileY, iso, top);
      s.(direction := c.direction,
         tileX := c.tileX, tileY := c.tileY,
         originalX := s.x, originalY := s.y,
         newX := t.x, newY := t.y,
         moving := true)
    else
      s.(direction := c.direction)
  }

  /**
   The per-axis clamp: a position that reached or passed the target, in the
   direction of travel from `origin`, is snapped onto the target.
   */
  function Snap(moved: real, origin: real, target: real): (r: real)
    ensures r == moved || r == target
    ensures origin == target ==> r == moved
    ensures target < origin ==> (r == target <==> moved <= target)
    ensures target > origin ==> (r == target <==> moved >= target)
  {
    if target < origin && moved <= target then target
    else if target > origin && moved >= target then target
    else moved
  }

  /**
   One axis of the moving branch: advance by the axis's full span scaled by
   `delta / MovementSpeed`, then snap to the target if that went past it.
   */
  function Glide(pos: real, origin: real, target: real, delta: real): (r: real)
    ensures 0.0 <= delta && Between(pos, origin, target) ==> Between(r, origin, target)
    ensures origin == target ==> r == pos
    ensures target != origin && pos == target && 0.0 <= delta ==> r == target
  {
    var step := (target - origin) * (delta / MovementSpeed);
    ScaledSign(target - origin, delta / MovementSpeed);
    SnapTowardTarget(pos, step, origin, target);
    Snap(pos + step, origin, target)
  }

  /** A span scaled by a non-negative factor keeps its sign, so an axis only moves towards its target. */
  lemma ScaledSign(span: real, f: real)
    ensures 0.0 <= f && 0.0 <= span ==> 0.0 <= span * f
    ensures 0.0 <= f && span <= 0.0 ==> span * f <= 0.0
    ensures span == 0.0 ==> span * f == 0.0
    ensures f == 0.0 ==> span * f == 0.0
  {
  }

  /** No overshoot: a step towards the target, then the snap, stays between origin and target. */
  lemma SnapTowardTarget(pos: real, step: real, origin: real, target: real)
    ensures Between(pos, origin, target) && (origin <= target ==> 0.0 <= step) && (target <= origin ==> step <= 0.0)
            ==> Between(Snap(pos + step, origin, target), origin, target)
    ensures origin == target && step == 0.0 ==> Snap(pos + step, origin, target) == pos
    ensures target != origin && pos == target && (origin <= target ==> 0.0 <= step) && (target <= origin ==> step <= 0.0)
            ==> Snap(pos + step, origin, target) == target
  {
  }

  /** The moving branch: interpolate both axes; the move ends exactly when both sit on the target. */
  function Interpolate(s: State, delta: real): (r: State)
    requires s.moving
    ensures r == s.(x := r.x, y := r.y, moving := r.moving)
    ensures !r.moving <==> r.x == s.newX && r.y == s.newY
    ensures 0.0 <= delta && Between(s.x, s.originalX, s.newX) ==> Between(r.x, s.originalX, s.newX)
    ensures 0.0 <= delta && Between(s.y, s.originalY, s.newY) ==> Between(r.y, s.originalY, s.newY)
  {
    var x := Glide(s.x, s.originalX, s.newX, delta);
    var y := Glide(s.y, s.originalY, s.newY, delta);
    s.(x := x, y := y, moving := !(x == s.newX && y == s.newY))
  }

  /** One call of `update(delta, map)` with the keys held during that tick. */
  function Step(s: State, delta: real, pressed: set<Key>, collides: (int, int) -> bool,
                iso: (int, int) -> Point, top: Point): (r: State)
    ensures s.moving ==>
              && r.tileX == s.tileX && r.tileY == s.tileY
              && r.direction == s.direction
              && r.originalX == s.originalX && r.originalY == s.originalY
              && r.newX == s.newX && r.newY == s.newY
    ensures s.moving && !r.moving ==> r.x == r.newX && r.y == r.newY
    ensures !s.moving ==> r.x == s.x && r.y == s.y
    ensures 0 <= r.direction <= 3 ==> ClipFacing(r.clip) == r.direction && IsWalk(r.clip) == r.moving
    ensures !(0 <= r.direction <= 3) ==> r.clip == s.clip
    ensures r.stateTime == s.stateTime + delta || r.stateTime == 0.0
    ensures r.stateTime <= ClockCycle
    ensures r.width == s.width && r.height == s.height
  {
    var m := if s.moving then Interpolate(s, delta) else IdleTick(s, pressed, collides, iso, top);
    m.(clip := SelectClip(m.direction, m.moving, m.clip),
       stateTime := AdvanceClock(m.stateTime, delta))
  }

  /**
   What holds between ticks: a known facing, the clock inside its cycle, and a
   moving player lying between the two ends of its move on both axes.
   */
  predicate Valid(s: State)
  {
    && LeftUp <= s.direction <= LeftDown
    && 0.0 <= s.stateTime <= ClockCycle
    && (s.moving ==> Between(s.x, s.originalX, s.newX) && Between(s.y, s.originalY, s.newY))
  }

  /** The initial player is valid, and spawn placement keeps an idle player valid. */
  lemma InitValid(box: Rect)
    ensures Valid(Init())
    ensures Valid(SetBoundingBox(Init(), box))
  {
  }

  /**
   A fresh player faces right-down and stands still, yet holds the left-down walk
   clip; the first tick replaces it with the clip that matches.
   */
  lemma FirstTickAlignsClip(delta: real, pressed: set<Key>, collides: (int, int) -> bool,
                            iso: (int, int) -> Point, top: Point)
    ensures ClipFacing(Init().clip) != Init().direction && IsWalk(Init().clip) != Init().moving
    ensures var r := Step(Init(), delta, pressed, collides, iso, top);
            ClipFacing(r.clip) == r.direction && IsWalk(r.clip) == r.moving
  {
  }

  /** Every tick with a non-negative delta keeps the state valid: in particular, no overshoot. */
  lemma StepPreservesValid(s: State, delta: real, pressed: set<Key>, collides: (int, int) -> bool,
                           iso: (int, int) -> Point, top: Point)
    requires Valid(s) && 0.0 <= delta
    ensures Valid(Step(s, delta, pressed, collides, iso, top))
  {
  }

  /** While moving, the keys, the collision query and the map geometry are not consulted at all. */
  lemma MovingIgnoresInput(s: State, delta: real,
                           pressed1: set<Key>, collides1: (int, int) -> bool, iso1: (int, int) -> Point, top1: Point,
                           pressed2: set<Key>, collides2: (int, int) -> bool, iso2: (int, int) -> Point, top2: Point)
    requires s.moving
    ensures Step(s, delta, pressed1, collides1, iso1, top1) == Step(s, delta, pressed2, collides2, iso2, top2)
  {
  }

  /** An idle tick with no key held changes neither tile, position, facing nor motion. */
  lemma NoKeyNoMove(s: State, delta: real, collides: (int, int) -> bool, iso: (int, int) -> Point, top: Point)
    requires !s.moving
    ensures var r := Step(s, delta, {}, collides, iso, top);
            && !r.moving && r.direction == s.direction
            && r.tileX == s.tileX && r.tileY == s.tileY
            && r.x == s.x && r.y == s.y
  {
  }

  /** A blocked candidate leaves the player where it is but turned towards the blocked tile. */
  lemma BlockedTurnsInPlace(s: State, delta: real, pressed: set<Key>, collides: (int, int) -> bool,
                            iso: (int, int) -> Point, top: Point)
    requires !s.moving && pressed != {}
    requires var c := Resolve(pressed, s.tileX, s.tileY, s.direction); collides(c.tileX, c.tileY)
    ensures var r := Step(s, delta, pressed, collides, iso, top);
            && !r.moving
            && r.direction == Facing(Chosen(pressed).value)
            && r.tileX == s.tileX && r.tileY == s.tileY
            && r.x == s.x && r.y == s.y
  {
  }

  /** A committed move shifts exactly one tile axis by one (modulo Java's 32-bit wrap) and sets a walk clip. */
  lemma CommitIsOneTile(s: State, delta: real, pressed: set<Key>, collides: (int, int) -> bool,
                        iso: (int, int) -> Point, top: Point)
    requires !s.moving
    ensures var r := Step(s, delta, pressed, collides, iso, top);
            r.moving ==>
              && ((UnitApart(s.tileX, r.tileX) && r.tileY == s.tileY)
                  || (r.tileX == s.tileX && UnitApart(s.tileY, r.tileY)))
              && r.originalX == s.x && r.originalY == s.y
              && IsWalk(r.clip)
  {
  }
}

/**
 Whole moves over several ticks. A committed move is tracked by its progress
 `p`: the fraction of the way from origin to target both axes have covered.
 Each tick adds `delta / MovementSpeed` to it, and the per-axis snap caps it at 1.
 */
module Movement {
  import opened Intent
  import opened Player

  function MinReal(a: real, b: real): real
  {
    if a <= b then a else b
  }

  /** Both axes sit at fraction `p` of the way from the move's origin to its target. */
  predicate Progress(s: State, p: real)
  {
    && 0.0 <= p <= 1.0
    && s.x == s.originalX + (s.newX - s.originalX) * p
    && s.y == s.originalY + (s.newY - s.originalY) * p
  }

  /** Idle and resting on the target of the last move. */
  predicate Settled(s: State)
  {
    !s.moving && s.x == s.newX && s.y == s.newY
  }

  /** Total time of a sequence of ticks. */
  function Sum(deltas: seq<real>): real
  {
    if |deltas| == 0 then 0.0 else deltas[0] + Sum(deltas[1..])
  }

  predicate NonNegative(deltas: seq<real>)
  {
    forall i :: 0 <= i < |deltas| ==> 0.0 <= deltas[i]
  }

  /** Run `update` once per delta with no key held. */
  function Run(s: State, deltas: seq<real>, collides: (int, int) -> bool,
               iso: (int, int) -> Point, top: Point): State
    decreases |deltas|
  {
    if |deltas| == 0 then s
    else Run(Step(s, deltas[0], {}, collides, iso, top), deltas[1..], collides, iso, top)
  }

  /** One axis: gliding from fraction `p` by `delta` lands on fraction min(p + delta / speed, 1). */
  lemma GlideAdvances(pos: real, origin: real, target: real, p: real, delta: real)
    requires 0.0 <= p <= 1.0 && 0.0 <= delta
    requires pos == origin + (target - origin) * p
    ensures Glide(pos, origin, target, delta)
            == origin + (target - origin) * MinReal(p + delta / MovementSpeed, 1.0)
  {
    AxisTick(pos, origin, target, p, delta);
    Scaling(target - origin, p + delta / MovementSpeed);
  }

  /**
   One axis, one tick, split by whether progress reaches 1: at or beyond it the
   axis is on its target; short of it the axis is at the new fraction, which for
   a non-zero span is not yet the target.
   */
  lemma AxisTick(pos: real, origin: real, target: real, p: real, delta: real)
    requires 0.0 <= p <= 1.0 && 0.0 <= delta
    requires pos == origin + (target - origin) * p
    ensures var g := Glide(pos, origin, target, delta);
            var q := p + delta / MovementSpeed;
            && (q >= 1.0 ==> g == target)
            && (q < 1.0 ==> g == origin + (target - origin) * q)
            && (q < 1.0 && origin != target ==> g != target)
  {
    var span := target - origin;
    var f := delta / MovementSpeed;
    var q := p + f;
    var moved := pos + span * f;
    assert Glide(pos, origin, target, delta) == Snap(moved, origin, target);
    Affine(origin, span, p, f, pos);
    assert moved == origin + span * q;
    Scaling(span, q);
    SnapAt(origin, target, span, moved, span * q, q);
  }

  /** Moving on from fraction `p` of a span by a further fraction `f` reaches fraction p + f. */
  lemma Affine(origin: real, span: real, p: real, f: real, pos: real)
    requires pos == origin + span * p
    ensures pos + span * f == origin + span * (p + f)
  {
    Distributes(span, p, f);
  }

  /**
   The snap in linear terms: an unsnapped position at offset `sq` (the span
   scaled by `q`) from the origin is snapped exactly when `q >= 1`.
   */
  lemma SnapAt(origin: real, target: real, span: real, moved: real, sq: real, q: real)
    requires span == target - origin && moved == origin + sq
    requires span > 0.0 ==> (sq >= span <==> q >= 1.0)
    requires span < 0.0 ==> (sq <= span <==> q >= 1.0)
    requires span == 0.0 ==> sq == 0.0
    ensures q >= 1.0 ==> Snap(moved, origin, target) == target
    ensures q < 1.0 ==> Snap(moved, origin, target) == origin + sq
    ensures q < 1.0 && origin != target ==> Snap(moved, origin, target) != target
  {
  }

  lemma Distributes(a: real, b: real, c: real)
    ensures a * b + a * c == a * (b + c)
  {
  }

  /** Scaling a non-zero span by `q` reaches or passes the full span exactly when `q >= 1`. */
  lemma Scaling(span: real, q: real)
    ensures span > 0.0 ==> (span * q >= span <==> q >= 1.0)
    ensures span < 0.0 ==> (span * q <= span <==> q >= 1.0)
    ensures span == 0.0 ==> span * q == 0.0
    ensures span * 1.0 == span
  {
    assert span * q - span == span * (q - 1.0);
  }

  /**
   One moving tick: the progress grows by `delta / MovementSpeed`; once it
   reaches 1 the player is idle on the target, and a player whose move has a
   non-zero span keeps moving until then.
   */
  lemma StepAdvancesProgress(s: State, p: real, delta: real, pressed: set<Key>,
                             collides: (int, int) -> bool, iso: (int, int) -> Point, top: Point)
    requires s.moving && Progress(s, p) && 0.0 <= delta
    ensures var r := Step(s, delta, pressed, collides, iso, top);
            var q := p + delta / MovementSpeed;
            && (q >= 1.0 ==> Settled(r))
            && (r.moving ==> q < 1.0 && Progress(r, q))
            && (!r.moving ==> Settled(r))
            && (q < 1.0 && (s.newX != s.originalX || s.newY != s.originalY) ==> r.moving)
  {
    var r := Step(s, delta, pressed, collides, iso, top);
    var q := p + delta / MovementSpeed;
    assert 0.0 <= delta / MovementSpeed;
    AxisTick(s.x, s.originalX, s.newX, p, delta);
    AxisTick(s.y, s.originalY, s.newY, p, delta);
    assert r.x == Glide(s.x, s.originalX, s.newX, delta);
    assert r.y == Glide(s.y, s.originalY, s.newY, delta);
    assert r.originalX == s.originalX && r.newX == s.newX;
    assert r.originalY == s.originalY && r.newY == s.newY;
  }

  /** A settled player with no key held stays settled, on the same tile and target. */
  lemma {:induction false} SettledStays(s: State, deltas: seq<real>, collides: (int, int) -> bool,
                                        iso: (int, int) -> Point, top: Point)
    requires Settled(s)
    ensures var r := Run(s, deltas, collides, iso, top);
            && Settled(r)
            && r.tileX == s.tileX && r.tileY == s.tileY
            && r.newX == s.newX && r.newY == s.newY
    decreases |deltas|
  {
    if |deltas| > 0 {
      var s1 := Step(s, deltas[0], {}, collides, iso, top);
      assert Settled(s1) && s1.tileX == s.tileX && s1.tileY == s.tileY && s1.newX == s.newX && s1.newY == s.newY;
      SettledStays(s1, deltas[1..], collides, iso, top);
    }
  }

  /**
   Completion: once the ticks of a move add up to the time it still needs, the
   player is idle, exactly on the target, on the tile it committed to.
   */
  lemma {:induction false} MoveCompletes(s: State, p: real, deltas: seq<real>, collides: (int, int) -> bool,
                                         iso: (int, int) -> Point, top: Point)
    requires s.moving && Progress(s, p) && p < 1.0
    requires NonNegative(deltas) && p + Sum(deltas) / MovementSpeed >= 1.0
    ensures var r := Run(s, deltas, collides, iso, top);
            && !r.moving
            && r.x == s.newX && r.y == s.newY
            && r.tileX == s.tileX && r.tileY == s.tileY
    decreases |deltas|
  {
    var s1 := Step(s, deltas[0], {}, collides, iso, top);
    var q := p + deltas[0] / MovementSpeed;
    StepAdvancesProgress(s, p, deltas[0], {}, collides, iso, top);
    assert NonNegative(deltas[1..]);
    if s1.moving {
      assert q + Sum(deltas[1..]) / MovementSpeed == p + Sum(deltas) / MovementSpeed;
      MoveCompletes(s1, q, deltas[1..], collides, iso, top);
    } else {
      SettledStays(s1, deltas[1..], collides, iso, top);
    }
  }

  /**
   The converse: while the ticks add up to less than the time still needed, a
   move with a non-zero span is still in progress, at the matching fraction.
   */
  lemma {:induction false} MoveInProgress(s: State, p: real, deltas: seq<real>, collides: (int, int) -> bool,
                                          iso: (int, int) -> Point, top: Point)
    requires s.moving && Progress(s, p)
    requires s.newX != s.originalX || s.newY != s.originalY
    requires NonNegative(deltas) && p + Sum(deltas) / MovementSpeed < 1.0
    ensures var r := Run(s, deltas, collides, iso, top);
            && r.moving
            && Progress(r, p + Sum(deltas) / MovementSpeed)
            && r.tileX == s.tileX && r.tileY == s.tileY
            && r.direction == s.direction
            && r.originalX == s.originalX && r.originalY == s.originalY
            && r.newX == s.newX && r.newY == s.newY
    decreases |deltas|
  {
    if |deltas| > 0 {
      var s1 := Step(s, deltas[0], {}, collides, iso, top);
      var q := p + deltas[0] / MovementSpeed;
      assert 0.0 <= Sum(deltas[1..]) by { SumNonNegative(deltas[1..]); }
      StepAdvancesProgress(s, p, deltas[0], {}, collides, iso, top);
      assert NonNegative(deltas[1..]);
      assert q + Sum(deltas[1..]) / MovementSpeed == p + Sum(deltas) / MovementSpeed;
      MoveInProgress(s1, q, deltas[1..], collides, iso, top);
    }
  }

  lemma {:induction false} SumNonNegative(deltas: seq<real>)
    requires NonNegative(deltas)
    ensures 0.0 <= Sum(deltas)
  {
    if |deltas| > 0 {
      assert NonNegative(deltas[1..]);
      SumNonNegative(deltas[1..]);
    }
  }

  /**
   A whole one-tile move from rest: the tick that commits, then ticks with no
   key held adding up to the move duration, end idle exactly on the render
   position of the candidate tile.
   */
  lemma OneTileMove(s: State, delta0: real, pressed: set<Key>, deltas: seq<real>,
                    collides: (int, int) -> bool, iso: (int, int) -> Point, top: Point)
    requires !s.moving && pressed != {}
    requires var c := Resolve(pressed, s.tileX, s.tileY, s.direction); !collides(c.tileX, c.tileY)
    requires NonNegative(deltas) && Sum(deltas) >= MovementSpeed
    ensures var c := Resolve(pressed, s.tileX, s.tileY, s.direction);
            var r := Run(Step(s, delta0, pressed, collides, iso, top), deltas, collides, iso, top);
            && !r.moving
            && r.tileX == c.tileX && r.tileY == c.tileY
            && Point(r.x, r.y) == Target(c.tileX, c.tileY, iso, top)
  {
    var s1 := Step(s, delta0, pressed, collides, iso, top);
    assert Progress(s1, 0.0);
    MoveCompletes(s1, 0.0, deltas, collides, iso, top);
  }
}

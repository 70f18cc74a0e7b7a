/**
 Directional intent: which movement key wins when several are held, which way
 the character then faces, and which neighbouring tile it tries to enter
 (Player.update, the key chain at the top of the idle branch).
 */
module Intent {
  import opened Wrappers
  import opened Int32

  /** The four keys the controller polls. */
  datatype Key = W | S | D | A

  /** Facing constants; the clip switch branches on exactly these values. */
  const LeftUp: int := 0
  const RightDown: int := 1
  const RightUp: int := 2
  const LeftDown: int := 3

  /** Position of a key in the polling chain: lower is checked first. */
  function Rank(k: Key): nat
  {
    match k
    case W => 0
    case S => 1
    case D => 2
    case A => 3
  }

  /** The key whose branch of the if/else-if chain is taken, if any. */
  function Chosen(pressed: set<Key>): (r: Option<Key>)
    ensures r.None? <==> pressed == {}
    ensures r.Some? ==> r.value in pressed
    ensures r.Some? ==> forall k :: k in pressed ==> Rank(r.value) <= Rank(k)
  {
    if W in pressed then Some(W)
    else if S in pressed then Some(S)
    else if D in pressed then Some(D)
    else if A in pressed then Some(A)
    else
      // each of the four keys was tested, so no key can be held
      assert forall k :: k in pressed ==> Rank(k) < 0;
      None
  }

  /** The priority order is strict, so the winning key is the unique highest-priority key held. */
  lemma ChosenIsUnique(pressed: set<Key>, k: Key)
    requires k in pressed
    requires forall j :: j in pressed ==> Rank(k) <= Rank(j)
    ensures Chosen(pressed) == Some(k)
  {
    var c := Chosen(pressed).value;
    assert Rank(c) <= Rank(k) && Rank(k) <= Rank(c);
  }

  /** The facing a key sets. */
  function Facing(k: Key): (d: int)
    ensures LeftUp <= d <= LeftDown
  {
    match k
    case W => LeftUp
    case S => RightDown
    case D => RightUp
    case A => LeftDown
  }

  /** Distinct keys face distinct ways, so the facing records which key won. */
  lemma FacingInjective(k1: Key, k2: Key)
    requires Facing(k1) == Facing(k2)
    ensures k1 == k2
  {
  }

  /** Tile delta (dx, dy) a key asks for: W and S move along x, D and A along y. */
  function Offset(k: Key): (r: (int, int))
    ensures (r.0 == 0) != (r.1 == 0)
    ensures -1 <= r.0 <= 1 && -1 <= r.1 <= 1
    ensures (k == W || k == S) <==> r.0 != 0
    ensures (k == W || k == D) <==> r.0 + r.1 < 0
  {
    match k
    case W => (-1, 0)
    case S => (1, 0)
    case D => (0, -1)
    case A => (0, 1)
  }

  /** The tile the character would enter and the facing it takes. */
  datatype Candidate = Candidate(tileX: int32, tileY: int32, direction: int)

  /** Resolve the held keys against the current tile and facing. */
  function Resolve(pressed: set<Key>, tileX: int32, tileY: int32, direction: int): (c: Candidate)
    ensures pressed == {} ==> c == Candidate(tileX, tileY, direction)
    ensures pressed != {} ==>
              var k := Chosen(pressed).value;
              && c.direction == Facing(k)
              && c.tileX == Wrap(tileX + Offset(k).0)
              && c.tileY == Wrap(tileY + Offset(k).1)
    ensures (c.tileX != tileX || c.tileY != tileY) <==> pressed != {}
    ensures pressed != {} ==>
              || (UnitApart(tileX, c.tileX) && c.tileY == tileY)
              || (c.tileX == tileX && UnitApart(tileY, c.tileY))
  {
    match Chosen(pressed)
    case None => Candidate(tileX, tileY, direction)
    case Some(k) =>
      var (dx, dy) := Offset(k);
      Candidate(Wrap(tileX + dx), Wrap(tileY + dy), Facing(k))
  }
}

/**
 * The player-side simulation of `ligma/src/state.rs`: the player's ship, its
 * single laser and the world state that owns them.
 *
 * The source's `SystemTime` readings are integer millisecond timestamps
 * here; every operation that reads the clock takes the reading as `now`.
 */
module Simulation {
  import opened Wrappers
  import opened Sprites
  import opened Viewport
  import opened PrototypeParser

  datatype LazerDirection = Up | Down

  /**
   * A laser: its cells, where it travels, when it last moved (a timestamp in
   * milliseconds) and how many ticks it waits between two steps.
   */
  datatype Lazer = Lazer(
    position: seq<Coord>,
    direction: LazerDirection,
    lastUpdate: int,
    timesSlowerThanCycle: nat)

  /**
   * The operations a `State` goes through, in the order they happen: the four
   * updates of a simulation tick, and the rendering of a frame from it.
   */
  datatype Step = PlayerLazerStep | AliensStep | AliensLasersStep | CollisionsStep | Rendered

  function Max(a: int, b: int): int
  {
    if a < b then b else a
  }

  // ---------------------------------------------------------------------
  // Horizontal moves (`Player::go_left`, `go_right`, `shift_by`)

  /** Some cell stands at or beyond the left bound: `go_left` refuses to move. */
  predicate AtLeftEdge(cells: seq<Coord>)
  {
    exists i :: 0 <= i < |cells| && cells[i].x <= MIN_X
  }

  /** Some cell stands at or beyond the right bound: `go_right` refuses to move. */
  predicate AtRightEdge(cells: seq<Coord>)
  {
    exists i :: 0 <= i < |cells| && cells[i].x >= MAX_X
  }

  /** The cells `shift_by` produces: each coordinate shifted through `i16` and floored at 0. */
  function ShiftedBy(cells: seq<Coord>, xShift: I16, yShift: I16): (r: seq<Coord>)
    ensures |r| == |cells|
  {
    seq(|cells|, i requires 0 <= i < |cells| =>
      Coord(ClampedShift(cells[i].x, xShift), ClampedShift(cells[i].y, yShift), cells[i].ch))
  }

  /**
   * The ship after `go_left`.  If a cell is at the left bound nothing moves;
   * otherwise every cell in a column below 2^15 moves three columns left,
   * floored at column 0; through the `i16` casts, columns 2^15 to 2^15 + 2
   * wrap to 2^15 - 3 to 2^15 - 1 and a column from 2^15 + 3 on becomes 0.
   * Every cell keeps its glyph and its row.  A row beyond the
   * `i16` range is clamped to 0 by the casts in `shift_by`.
   */
  function MovedLeft(cells: seq<Coord>): (r: seq<Coord>)
    ensures |r| == |cells|
    ensures AtLeftEdge(cells) ==> r == cells
    ensures forall i :: 0 <= i < |cells| ==> r[i].ch == cells[i].ch
    ensures !AtLeftEdge(cells) ==> forall i :: 0 <= i < |cells| && cells[i].x <= I16_MAX ==>
      r[i].x == Max(cells[i].x - 3, 0)
    ensures !AtLeftEdge(cells) ==> forall i :: 0 <= i < |cells| ==>
      r[i].y == if cells[i].y <= I16_MAX then cells[i].y else 0
  {
    if AtLeftEdge(cells) then cells
    else
      var r := ShiftedBy(cells, -3, 0);
      assert forall i :: 0 <= i < |cells| ==> r[i].x == ClampedShift(cells[i].x, -3);
      forall i | 0 <= i < |cells|
        ensures cells[i].x <= I16_MAX ==> r[i].x == Max(cells[i].x - 3, 0)
        ensures r[i].y == if cells[i].y <= I16_MAX then cells[i].y else 0
      {
        ClampedShiftValue(cells[i].x, -3);
        ClampedShiftValue(cells[i].y, 0);
      }
      r
  }

  /**
   * The ship after `go_right`.  If a cell is at the right bound nothing
   * moves; otherwise every cell moves exactly three columns right, keeps its
   * glyph and its row (a row beyond the `i16` range is clamped to 0).
   */
  function MovedRight(cells: seq<Coord>): (r: seq<Coord>)
    ensures |r| == |cells|
    ensures AtRightEdge(cells) ==> r == cells
    ensures forall i :: 0 <= i < |cells| ==> r[i].ch == cells[i].ch
    ensures !AtRightEdge(cells) ==> forall i :: 0 <= i < |cells| ==> r[i].x == cells[i].x + 3
    ensures !AtRightEdge(cells) ==> forall i :: 0 <= i < |cells| ==>
      r[i].y == if cells[i].y <= I16_MAX then cells[i].y else 0
  {
    if AtRightEdge(cells) then cells
    else
      var r := ShiftedBy(cells, 3, 0);
      forall i | 0 <= i < |cells|
        ensures r[i].x == cells[i].x + 3
        ensures r[i].y == if cells[i].y <= I16_MAX then cells[i].y else 0
      {
        ClampedShiftValue(cells[i].x, 3);
        ClampedShiftValue(cells[i].y, 0);
      }
      r
  }

  /**
   * `go_left` tests where the ship is, not where it would go: once no cell
   * is at the bound the move is made, and among the columns below 2^15
   * exactly the cells in the two columns next to the bound land left of
   * the viewport, in column 0.
   */
  lemma MovedLeftCanLeaveViewport(cells: seq<Coord>)
    requires !AtLeftEdge(cells)
    ensures forall i :: 0 <= i < |cells| && cells[i].x <= I16_MAX ==>
      (MovedLeft(cells)[i].x < MIN_X <==> cells[i].x < MIN_X + 3)
    ensures forall i :: 0 <= i < |cells| && cells[i].x < MIN_X + 3 ==> MovedLeft(cells)[i].x == 0
  {
  }

  /**
   * Likewise `go_right`: once no cell is at the bound, exactly the cells in
   * the two columns next to it land right of the viewport.
   */
  lemma MovedRightCanLeaveViewport(cells: seq<Coord>)
    requires !AtRightEdge(cells)
    ensures forall i :: 0 <= i < |cells| ==> (MovedRight(cells)[i].x > MAX_X <==> cells[i].x > MAX_X - 3)
  {
  }

  // ---------------------------------------------------------------------
  // Firing (`Player::shoot`)

  /**
   * The laser `Player::shoot` creates from the ship's first cell: the laser
   * template instantiated at `(tip.x, tip.y - 2)`, travelling up, stepping
   * every second tick, its timer started at `now`.
   */
  function NewLazer(tip: Coord, prototype: seq<Coord>, now: int): (l: Lazer)
    ensures l.direction == Up && l.timesSlowerThanCycle == 2 && l.lastUpdate == now
    ensures |l.position| == |prototype|
    ensures tip.y >= 2 && ShiftFits(prototype, tip.x, tip.y - 2) ==>
      forall i :: 0 <= i < |prototype| ==>
        l.position[i] == Coord(prototype[i].x + tip.x, prototype[i].y + tip.y - 2, prototype[i].ch)
  {
    assert tip.y >= 2 && ShiftFits(prototype, tip.x, tip.y - 2) ==>
      forall i :: 0 <= i < |prototype| ==>
        ShiftPrototype(prototype, tip.x, AddU16(tip.y, -2))[i]
          == Coord(prototype[i].x + tip.x, prototype[i].y + tip.y - 2, prototype[i].ch)
    by {
      if tip.y >= 2 && ShiftFits(prototype, tip.x, tip.y - 2) {
        AddU16Exact(tip.y, -2);
        ShiftPrototypeExact(prototype, tip.x, tip.y - 2);
      }
    }
    Lazer(ShiftPrototype(prototype, tip.x, AddU16(tip.y, -2)), Up, now, 2)
  }

  // ---------------------------------------------------------------------
  // The laser's step (`State::update_player_lazer`)

  /** The row offset of one step: up is towards row 0. */
  function VerticalShift(d: LazerDirection): I16
  {
    match d
    case Up => -1
    case Down => 1
  }

  predicate InRows(y: int)
  {
    MIN_Y <= y <= MAX_Y
  }

  /** The source's test: a cell whose row, shifted through `i16`, leaves `[MIN_Y, MAX_Y]`. */
  predicate LeavesViewport(cells: seq<Coord>, d: LazerDirection)
  {
    exists i :: 0 <= i < |cells| && !InRows(AddI16(AsI16(cells[i].y), VerticalShift(d)))
  }

  /** Every cell's row, one step on in plain integer arithmetic, is within `[MIN_Y, MAX_Y]`. */
  predicate StepStaysInRows(cells: seq<Coord>, d: LazerDirection)
  {
    forall i :: 0 <= i < |cells| ==> InRows(cells[i].y + VerticalShift(d))
  }

  /** The cells one step on, each row shifted through `i16` and cast back. */
  function Advanced(cells: seq<Coord>, d: LazerDirection): (r: seq<Coord>)
    ensures |r| == |cells|
  {
    seq(|cells|, i requires 0 <= i < |cells| =>
      Coord(cells[i].x, I16AsU16(AddI16(AsI16(cells[i].y), VerticalShift(d))), cells[i].ch))
  }

  /** The laser's cadence has elapsed at time `now`. */
  predicate Due(l: Lazer, now: int)
  {
    now - l.lastUpdate >= l.timesSlowerThanCycle * MS_PER_UPDATE
  }

  /**
   * The `i16` casts of the bounds test never misjudge a row: a row one step
   * on is outside `[MIN_Y, MAX_Y]` in `i16` exactly when it is outside in
   * plain integers, and inside it the cast back gives the plain row.
   */
  lemma StepCastsAgree(y: U16, shift: I16)
    requires shift == -1 || shift == 1
    ensures InRows(AddI16(AsI16(y), shift)) <==> InRows(y + shift)
    ensures InRows(y + shift) ==> I16AsU16(AddI16(AsI16(y), shift)) == y + shift
  {
  }

  /**
   * The laser after one call of `update_player_lazer` at time `now`, or
   * `None` once it is destroyed.  Before its cadence has elapsed it is left
   * as it is.  Then, if some cell's row one step on is outside
   * `[MIN_Y, MAX_Y]`, the laser is destroyed; otherwise every cell moves
   * exactly one row in the laser's direction, keeping column and glyph, and
   * the laser's timer restarts at `now`.
   */
  function UpdatedLazer(l: Lazer, now: int): (r: Option<Lazer>)
    ensures !Due(l, now) ==> r == Some(l)
    ensures Due(l, now) && !StepStaysInRows(l.position, l.direction) ==> r == None
    ensures Due(l, now) && StepStaysInRows(l.position, l.direction) ==>
        && r.Some?
        && r.value.direction == l.direction
        && r.value.timesSlowerThanCycle == l.timesSlowerThanCycle
        && r.value.lastUpdate == now
        && |r.value.position| == |l.position|
        && forall i :: 0 <= i < |l.position| ==>
             r.value.position[i] == Coord(l.position[i].x, l.position[i].y + VerticalShift(l.direction), l.position[i].ch)
  {
    if !Due(l, now) then Some(l)
    else
      var shift := VerticalShift(l.direction);
      assert forall i :: 0 <= i < |l.position| ==>
        (InRows(AddI16(AsI16(l.position[i].y), shift)) <==> InRows(l.position[i].y + shift))
        && (InRows(l.position[i].y + shift) ==>
              I16AsU16(AddI16(AsI16(l.position[i].y), shift)) == l.position[i].y + shift)
      by {
        forall i | 0 <= i < |l.position| {
          StepCastsAgree(l.position[i].y, shift);
        }
      }
      if LeavesViewport(l.position, l.direction) then None
      else Some(l.(position := Advanced(l.position, l.direction), lastUpdate := now))
  }

  // ---------------------------------------------------------------------
  // The player (`Player`)

  class Player {
    var health: nat
    var position: seq<Coord>
    var lazer: Option<Lazer>

    constructor (health: nat, position: seq<Coord>)
      ensures this.health == health && this.position == position && lazer == None
    {
      this.health := health;
      this.position := position;
      lazer := None;
    }

    /** `Player::shoot`: replaces the laser by a fresh one fired from the first cell. */
    method Shoot(prototype: seq<Coord>, now: int)
      requires |position| > 0
      modifies this`lazer
      ensures lazer == Some(NewLazer(position[0], prototype, now))
    {
      var tip := position[0];
      var cells := ShiftPrototype(prototype, tip.x, AddU16(tip.y, -2));
      lazer := Some(Lazer(cells, Up, now, 2));
    }

    /** `Player::go_left` */
    method GoLeft()
      modifies this`position
      ensures position == MovedLeft(old(position))
    {
      if AtLeftEdge(position) {
        return;
      }
      ShiftBy(-3, 0);
    }

    /** `Player::go_right` */
    method GoRight()
      modifies this`position
      ensures position == MovedRight(old(position))
    {
      if AtRightEdge(position) {
        return;
      }
      ShiftBy(3, 0);
    }

    /** `Player::shift_by` */
    method ShiftBy(xShift: I16, yShift: I16)
      modifies this`position
      ensures position == ShiftedBy(old(position), xShift, yShift)
    {
      position := ShiftedBy(position, xShift, yShift);
    }
  }

  // ---------------------------------------------------------------------
  // The world state (`State`)

  /**
   * The world: the player and the laser template.  The formation, the enemy
   * lasers and the bunkers are not part of this model (see `UpdateAliens`,
   * `UpdateAliensLasers`, `ApplyCollisions`).  `history` records the
   * operations the state has gone through.
   */
  class State {
    const player: Player
    const lazerPrototype: seq<Coord>
    ghost var history: seq<Step>

    /** The player's health stays in `[0, 3]`. */
    ghost predicate Valid()
      reads this, player
    {
      player.health <= 3
    }

    /**
     * `State::new` from the texts of the player and laser assets: health 3,
     * no laser, the ship is the player template instantiated at `(1, 40)`.
     * The source panics on an asset that does not parse.
     */
    constructor (playerAsset: string, lazerAsset: string)
      requires Loadable(playerAsset) && Loadable(lazerAsset)
      ensures Valid() && fresh(player) && history == []
      ensures player.health == 3 && player.lazer == None
      ensures player.position == ShiftPrototype(ParsePrototype(playerAsset).value, 1, 40)
      ensures lazerPrototype == ParsePrototype(lazerAsset).value
    {
      var playerPrototype := ParsePrototype(playerAsset).value;
      var lazerPrototype := ParsePrototype(lazerAsset).value;
      player := new Player(3, ShiftPrototype(playerPrototype, 1, 40));
      this.lazerPrototype := lazerPrototype;
      history := [];
    }

    /** `State::player_go_left` */
    method PlayerGoLeft()
      modifies player
      ensures player.position == MovedLeft(old(player.position))
      ensures player.health == old(player.health) && player.lazer == old(player.lazer)
    {
      player.GoLeft();
    }

    /** `State::player_go_right` */
    method PlayerGoRight()
      modifies player
      ensures player.position == MovedRight(old(player.position))
      ensures player.health == old(player.health) && player.lazer == old(player.lazer)
    {
      player.GoRight();
    }

    /** Firing can proceed: a laser already exists, or the ship has a first cell to fire from. */
    predicate CanShoot()
      reads this, player
    {
      player.lazer.Some? || |player.position| > 0
    }

    /**
     * `State::player_shoot`: with a laser in flight nothing happens;
     * otherwise a new laser is fired.  Either way exactly one laser exists
     * afterwards.
     */
    method PlayerShoot(now: int)
      requires CanShoot()
      modifies player
      ensures player.health == old(player.health) && player.position == old(player.position)
      ensures old(player.lazer).Some? ==> player.lazer == old(player.lazer)
      ensures old(player.lazer).None? ==> player.lazer == Some(NewLazer(player.position[0], lazerPrototype, now))
      ensures player.lazer.Some?
    {
      if player.lazer.Some? {
        return;
      }
      player.Shoot(lazerPrototype, now);
    }

    /**
     * `State::update_player_lazer` at time `now`.  The source's
     * `elapsed().unwrap()` panics when the clock reads earlier than the
     * laser's timer.
     */
    method UpdatePlayerLazer(now: int)
      requires player.lazer.Some? ==> now >= player.lazer.value.lastUpdate
      modifies this, player
      ensures player.lazer == if old(player.lazer).None? then None else UpdatedLazer(old(player.lazer).value, now)
      ensures player.health == old(player.health) && player.position == old(player.position)
      ensures history == old(history) + [PlayerLazerStep]
    {
      history := history + [PlayerLazerStep];
      if player.lazer.None? {
        return;
      }
      var lazer := player.lazer.value;
      if now - lazer.lastUpdate < lazer.timesSlowerThanCycle * MS_PER_UPDATE {
        return;
      }
      lazer := lazer.(lastUpdate := now);
      player.lazer := Some(lazer);
      if LeavesViewport(lazer.position, lazer.direction) {
        player.lazer := None;
        return;
      }
      player.lazer := Some(lazer.(position := Advanced(lazer.position, lazer.direction)));
    }

    /**
     * `State::update_aliens`: the formation's step.  The formation is not
     * part of this model; the step leaves the player alone.
     */
    method UpdateAliens()
      modifies this
      ensures history == old(history) + [AliensStep]
    {
      history := history + [AliensStep];
    }

    /**
     * `State::update_aliens_lasers`: the enemy lasers' step.  The enemy
     * lasers are not part of this model; the step leaves the player alone.
     */
    method UpdateAliensLasers()
      modifies this
      ensures history == old(history) + [AliensLasersStep]
    {
      history := history + [AliensLasersStep];
    }

    /**
     * `State::apply_collisions`.  Collision resolution is not part of this
     * model; all that is promised of it is that it may destroy the player's
     * laser and lower the player's health, and moves nothing.
     */
    method ApplyCollisions()
      requires Valid()
      modifies this, player
      ensures Valid()
      ensures player.lazer == old(player.lazer) || player.lazer == None
      ensures player.health <= old(player.health)
      ensures player.position == old(player.position)
      ensures history == old(history) + [CollisionsStep]
    {
      history := history + [CollisionsStep];
    }
  }
}

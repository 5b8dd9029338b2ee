/**
 * The compile-time constants of `ligma/src/game.rs`: the length of one
 * simulation tick in milliseconds and the bounds of the playable viewport.
 * `state.rs` imports the viewport bounds as `MIN_X`, `MAX_X`, `MIN_Y`, `MAX_Y`.
 */
module Viewport {

  /** Milliseconds of wall-clock time per simulation tick (`MS_PER_UPDATE`). */
  const MS_PER_UPDATE: nat := 10

  const MIN_X: int := 1
  const MAX_X: int := 200
  const MIN_Y: int := 1
  const MAX_Y: int := 72
}

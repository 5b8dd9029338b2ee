# ligma-invaders: a verified model of the player simulation and game loop

This project models the core of the terminal shooter *ligma-invaders* in Dafny:

- the sprite primitives of `ligma/src/state.rs`: glyph cells (`Coord`), instantiating a template at an origin (`shift_prototype`), and the parser of the `"<x> <y> <glyph>"` asset format (`parse_prototype`);
- the player: horizontal moves bounded by the viewport (`go_left`, `go_right`, `shift_by`), firing at most one laser (`shoot`, `player_shoot`), and the laser's cadence-gated vertical step, which destroys a laser that would leave the viewport (`update_player_lazer`);
- the control logic of `ligma/src/game.rs`: the win and loss checks and the fixed-timestep lag loop of `update_and_render`, the key dispatch while playing (`handle_user_input`), the key wait on a banner screen (`render_game_over_screen`), and one pass of the main loop in `start`.

Files, one module each:

| file | module | models |
|---|---|---|
| `wrappers.dfy` | `Wrappers` | `Option`, `Result` |
| `viewport.dfy` | `Viewport` | `MS_PER_UPDATE` and the viewport bounds (`game.rs:19-23`) |
| `sprites.dfy` | `Sprites` | `Coord`, `u16`/`i16` arithmetic and casts, `shift_prototype` |
| `prototype_parser.dfy` | `PrototypeParser` | `parse_prototype` and the library functions it calls |
| `simulation.dfy` | `Simulation` | `Lazer`, `Player`, `State` |
| `game.dfy` | `Game` | `LigmaInvaders`, `InputResult`, `GameState` |

Modelling choices:

- **Integers.** Coordinates are `u16` (`Sprites.U16`). The model uses Rust's release-profile arithmetic: `+` and `-` wrap around, and `as` casts between `u16` and `i16` reinterpret the bits (`AsI16`, `I16AsU16`). A debug build panics on the same overflows. The lemmas state the no-overflow conditions under which both builds compute the exact result. Examples: `ShiftPrototypeExact`, the `tip.y >= 2` case of `NewLazer`, and the `i16` range cases of `MovedLeft`. Where the casts matter, they are proved harmless: the laser's bounds test through `i16` never misjudges a row (`StepCastsAgree`). `shift_by` floors at column 0. It also sends any row at or above 2^15 to 0.
- **Time.** Every `SystemTime` reading is an integer millisecond timestamp `now`, passed in as a parameter. `elapsed().unwrap()` panics when the clock reads earlier than the stored time, so the game requires `now` never to decrease. The ghost field `clock` holds the latest reading. Within one call every clock reading is the same `now`, so a laser, whose cadence is measured on the clock, steps at most once in a burst of ticks (`CatchUp`).
- **Assets.** `player.txt` and `lazer.txt` are not part of this model. `State::new` takes their texts as parameters and requires both to parse, because the source panics otherwise.
- **Order of operations.** A `State` keeps a ghost `history` of the operations it goes through. Each tick update appends its own step, and drawing a frame appends `Rendered`. The contract of `update_and_render` is stated over this history.
- **Input.** A terminal event is a `Key`. The keys a banner screen reads are a finite sequence. If that sequence runs out before `'q'` or Enter, the wait answers `None`; the source would block and wait for more keys.

Four behaviours of the code are worth stating outright:

- The guard of `go_left` and `go_right` tests the ship's current column, not the column it would move to, so a move can carry a cell past a bound. When no cell is at the bound, a cell in columns 2 or 3 moves to column 0 (`MovedLeftCanLeaveViewport`), and a cell in columns 198 or 199 moves beyond column 200 (`MovedRightCanLeaveViewport`).
- `update_and_render` resets `last_update` to the current time on every tick, so after any tick the remainder below `MS_PER_UPDATE` is dropped rather than carried to the next call (`CatchUp`).
- `parse_prototype` panics if the third field is empty (`state.rs:138`). That cannot happen, because `split_whitespace` never yields an empty field (`Words`).
- `game.rs` calls `State::new()?`, `update_player_laser` and `player.laser`, while `state.rs` has an infallible `State::new`, `update_player_lazer` and `player.lazer`. The model follows `state.rs`.

## Model

| member | source | states |
|---|---|---|
| `Sprites.ShiftPrototype` | ligma/src/state.rs:145-154 | instantiating a template keeps its length, cell order and glyphs, and adds the offset to every coordinate modulo 2^16, the `u16` wrap-around of a release build |
| `Sprites.ShiftPrototypeExact` | ligma/src/state.rs:145-154 | instantiating a template keeps its length, order and glyphs and adds exactly `(x_shift, y_shift)` to every cell when no `u16` sum overflows |
| `Sprites.ShiftPrototypeIdentity` | ligma/src/state.rs:145-154 | instantiating at the origin `(0, 0)` returns the template unchanged |
| `Sprites.ShiftPrototypeCompose` | ligma/src/state.rs:145-154 | instantiating at `(a, b)` and then at `(c, d)` equals instantiating once at `(a + c, b + d)` modulo 2^16, for every template |
| `Sprites.ShiftPrototypeComposeExact` | ligma/src/state.rs:145-154 | with sums that fit in `u16`, two instantiations compose by plain addition of the offsets |
| `Sprites.ClampedShiftValue` | ligma/src/state.rs:185-195 | a `shift_by` coordinate inside the `i16` range is shifted and floored at 0; a coordinate beyond it, left unshifted, comes out as 0 |
| `PrototypeParser.Lines` | ligma/src/state.rs:125 | the lines that `str::lines` yields contain no line feed |
| `PrototypeParser.Words` | ligma/src/state.rs:127 | every field that `split_whitespace` yields is non-empty and holds no whitespace, so the glyph read at line 138 always exists |
| `PrototypeParser.Collect` | ligma/src/state.rs:124-142 | the per-line results give one cell per line, in order, exactly when every line parses; otherwise the error names the first refused line and its reason, standing for the panic of the first `expect` that refuses a line |
| `PrototypeParser.ParsePrototype` | ligma/src/state.rs:123-143 | `parse_prototype` succeeds if and only if every line parses; it then yields one cell per line in line order; on failure it names the first malformed line and why, never skipping it |
| `PrototypeParser.ParseLine` | ligma/src/state.rs:126-141 | a line parses exactly when it has at least three fields and `from_str_radix` accepts the first two; the cell is then those two values and the first character of the third field; a number error is reported exactly when one of the first two fields present is refused, before a missing field is |
| `PrototypeParser.ParseU16` | ligma/src/state.rs:128-131 | `u16::from_str_radix(_, 10)` refuses the empty string, a lone `+` and anything with a `-`; an accepted string is ASCII digits, optionally after one `+`, and denotes its decimal value; every digit string below 2^16 is accepted |
| `PrototypeParser.ParseU16Decimal` | ligma/src/state.rs:128-131 | `u16::from_str_radix(_, 10)` reads every `u16` written in decimal back as the same value |
| `PrototypeParser.ParseFormatLine` | ligma/src/state.rs:126-141 | a cell written as `"<x> <y> <glyph>"` parses back to the same cell when the glyph is not whitespace |
| `PrototypeParser.ParseFormatPrototype` | ligma/src/state.rs:123-143 | round trip: a template written in the asset format parses back to the same template when no glyph is whitespace |
| `Simulation.MovedLeft` | ligma/src/state.rs:169-195 | `go_left` leaves the ship unchanged if any cell has `x <= MIN_X`; otherwise the cell count and glyphs are kept, a column in the `i16` range becomes `max(x - 3, 0)`, and a row stays as it is in the `i16` range and becomes 0 from 2^15 on |
| `Simulation.MovedRight` | ligma/src/state.rs:177-195 | `go_right` leaves the ship unchanged if any cell has `x >= MAX_X`; otherwise the cell count and glyphs are kept, every column grows by exactly 3, and a row stays as it is in the `i16` range and becomes 0 from 2^15 on |
| `Simulation.MovedLeftCanLeaveViewport` | ligma/src/state.rs:169-175 | the guard tests the current position only: when no cell is at the bound, among columns below 2^15 exactly those below `MIN_X + 3` land left of `MIN_X`, in column 0 |
| `Simulation.MovedRightCanLeaveViewport` | ligma/src/state.rs:177-183 | the guard tests the current position only: when no cell is at the bound, exactly the cells in columns above `MAX_X - 3` land right of `MAX_X` |
| `Simulation.NewLazer` | ligma/src/state.rs:157-167 | a fired laser travels up, has cadence 2 and a timer started at `now`; when `y >= 2` and nothing overflows, its cells are the laser template shifted by `(first.x, first.y - 2)` |
| `Simulation.StepCastsAgree` | ligma/src/state.rs:101-118 | the `i16` bounds test judges a row one step on exactly as integer arithmetic does, and the cast back gives the integer row |
| `Simulation.UpdatedLazer` | ligma/src/state.rs:79-120 | a laser whose cadence has not elapsed is left as it is; once it has elapsed, the laser is destroyed if some cell's row one step on leaves `[MIN_Y, MAX_Y]`, and otherwise every cell moves exactly one row in its direction with column and glyph kept and the timer reset to `now` |
| `Simulation.Player.constructor` | ligma/src/state.rs:52-56 | a player with the given health and position and no laser |
| `Simulation.Player.Shoot` | ligma/src/state.rs:157-167 | the laser becomes the one fired from the first cell of the ship (`NewLazer`); the position is untouched |
| `Simulation.Player.GoLeft` | ligma/src/state.rs:169-175 | the new position is `MovedLeft` of the old one |
| `Simulation.Player.GoRight` | ligma/src/state.rs:177-183 | the new position is `MovedRight` of the old one |
| `Simulation.Player.ShiftBy` | ligma/src/state.rs:185-195 | every cell shifted through `i16` and floored at 0 |
| `Simulation.State.constructor` | ligma/src/state.rs:44-61 | health 3, no laser, the ship is the player template instantiated at `(1, 40)`, the laser template is kept |
| `Simulation.State.PlayerGoLeft` | ligma/src/state.rs:63-65 | moves the ship as `go_left` does; health and laser are unchanged |
| `Simulation.State.PlayerGoRight` | ligma/src/state.rs:67-69 | moves the ship as `go_right` does; health and laser are unchanged |
| `Simulation.State.PlayerShoot` | ligma/src/state.rs:71-77 | a no-op when a laser exists, and otherwise fires one; afterwards exactly one laser exists |
| `Simulation.State.UpdatePlayerLazer` | ligma/src/state.rs:79-120 | the laser becomes `UpdatedLazer` of the old one, or stays absent; the ship and health are unchanged; the step is recorded |
| `Simulation.State.UpdateAliens` | ligma/src/game.rs:118 | the formation's update runs in its place in the tick and leaves the player alone |
| `Simulation.State.UpdateAliensLasers` | ligma/src/game.rs:119 | the enemy lasers' update runs in its place in the tick and leaves the player alone |
| `Simulation.State.ApplyCollisions` | ligma/src/game.rs:120 | collision resolution runs last in the tick; it may only remove the player's laser or lower health, and keeps health in `[0, 3]` |
| `Game.PlayResult` | ligma/src/game.rs:214-246 | while playing, an event answers `Quit` exactly when it is the key `'q'` |
| `Game.BannerResult` | ligma/src/game.rs:263-281 | on a banner screen, `'q'` answers `Quit`, Enter answers `Continue`, and every other event is ignored |
| `Game.WaitForKey` | ligma/src/game.rs:263-281 | the wait ends at the first key that ends it, with that key's answer; every key before it is ignored; without such a key the wait never ends |
| `Game.WaitForKeyAt` | ligma/src/game.rs:263-281 | the wait ends exactly at the first `'q'` or Enter |
| `Game.TickHistoryShape` | ligma/src/game.rs:113-126 | each tick performs the player-laser update, the formation update, the enemy-laser update and collision resolution, in that order; a frame is drawn exactly once, after the last tick, if one tick ran, and never otherwise |
| `Game.LigmaInvaders.constructor` | ligma/src/game.rs:46-52 | a fresh world as `State::new` builds it, with the tick reference set to `now` |
| `Game.LigmaInvaders.SetLastUpdate` | ligma/src/game.rs:201-203 | the tick reference becomes `now` |
| `Game.LigmaInvaders.Render` | ligma/src/game.rs:122-125 | drawing a frame is recorded after the updates that precede it |
| `Game.LigmaInvaders.HandleUserInput` | ligma/src/game.rs:214-246 | `'q'` quits with no state change; Space fires as `player_shoot` does; Left and Right move the ship as `go_left` and `go_right` do; Up, other characters and other events change nothing and continue |
| `Game.LigmaInvaders.RenderGameOverScreen` | ligma/src/game.rs:248-282 | shows the banner, ignores every key until `'q'` (answers `Quit`, world kept) or Enter (a fresh world, answers `Continue`); the answer and the keys read are `WaitForKey` of the input |
| `Game.LigmaInvaders.Tick` | ligma/src/game.rs:114-120 | one tick resets the tick reference to `now`, records the player-laser, formation, enemy-laser and collision steps in that order, keeps the ship where it is, never raises health, and leaves the laser either destroyed or `UpdatedLazer` of the old one |
| `Game.LigmaInvaders.CatchUp` | ligma/src/game.rs:111-126 | the lag loop runs exactly `elapsed / MS_PER_UPDATE` ticks and draws one frame after the last, and moves the reference to `now` only if a tick ran; the ship does not move, health never rises, and with no tick the player is untouched; after one or more ticks a laser in flight is destroyed or `UpdatedLazer` of the old one at `now`, so it moves at most one row per burst, and no laser appears |
| `Game.LigmaInvaders.UpdateAndRender` | ligma/src/game.rs:102-129 | a dead player or an invasion shows the Lost banner, checked before the Won banner for an empty formation, and no tick runs; a banner answered otherwise than `Continue` leaves the player as it was; without a banner exactly `elapsed / MS_PER_UPDATE` ticks run in order, one frame is drawn after the last, the reference is reset to `now` only if a tick ran, the ship stays put, health never rises, and the laser is as `CatchUp` leaves it |
| `Game.LigmaInvaders.Frame` | ligma/src/game.rs:67-85 | a polled `'q'` ends the game before any simulation and leaves the player as it was; otherwise the key is handled, so an arrow moves the ship as `go_left`/`go_right` do; then either the banner is shown and waited on, keeping the ship and laser as the key left them unless Enter starts a new world, or the ticks run: the ship stays where the key put it, health is kept when no tick is due and never rises otherwise, and the laser, the old one or one just fired by Space, is destroyed or steps as `UpdatedLazer` at `now` |

## Left out

- Terminal I/O has no semantics to verify, so it is not modelled: `prepare_screen`, `reset_screen`, the drawing inside `render`, the `execute!`/`queue!` output, `poll` and `read`, and the colours (`get_player_color`). When a frame is drawn is modelled (`Render`); what it draws is not.
- I/O errors are not modelled. The `?` propagation of a failed draw, read or poll and the `LigmaResult` message formatting are foreign to the simulation.
- Panics in a debug build are not modelled: the overflow checks of `+` and `-` on `u16` and `i16`, where the model follows the release build's wrap-around. Panics that happen in both builds appear as preconditions: `first().unwrap()` in `shoot`, `elapsed().unwrap()`, and a malformed asset.
- The formation, the enemy lasers, the bunkers, collision resolution, `aliens_invaded` and `get_aliens_count` are not implemented in `state.rs`. The two queries are parameters of `UpdateAndRender`. The three updates are methods that record their place in the tick but change nothing.
- Simulation.State.ApplyCollisions: it only promises that it may remove the player's laser or lower health, not what the missing collision code does.
- Simulation.State.UpdateAliens: it only promises to leave the player alone, because the formation is not part of this model.
- Simulation.State.UpdateAliensLasers: it only promises to leave the player alone, because the enemy lasers are not part of this model.
- The outer loop of `start`, which runs until quit and is driven by terminal polling, is modelled as one pass (`Frame`). Its start screen is `RenderGameOverScreen(NewGame, …)`.
- The contents of `assets/player.txt` and `assets/lazer.txt` are not part of this model. Their texts are parameters.
- The key event's kind (press or release) and its modifiers are not modelled, because the source matches on the key code only.
- `update_player_lazer` mutates the laser in place through `as_mut`. The model reassigns the player's `Option<Lazer>` field with an updated value; nothing else holds the laser, so no aliasing is lost.
- The entry point `invaders/src/main.rs` is not modelled, because it only calls `new` and `start` and prints their errors.

/**
 * The control logic of `ligma/src/game.rs`: the fixed-timestep loop of
 * `update_and_render` with its win and loss checks, the key dispatch while
 * playing (`handle_user_input`) and the wait on a banner screen
 * (`render_game_over_screen`).
 *
 * Terminal I/O is abstracted away: a key read from the terminal is a `Key`,
 * the keys a banner screen will read are a finite sequence, drawing a frame
 * is recorded in the state's history, and the wall clock is a millisecond
 * reading `now`.  The alien queries the source makes (`aliens_invaded`,
 * `get_aliens_count`) are parameters.
 */
module Game {
  import opened Wrappers
  import opened Sprites
  import opened Viewport
  import opened PrototypeParser
  import opened Simulation

  /** A terminal event: the key codes the game tells apart, and `Other` for any other event. */
  datatype Key = Left | Right | Up | Enter | Char(c: char) | Other

  datatype InputResult = Continue | Quit

  /** The banner screens. */
  datatype GameState = NewGame | Won | Lost

  /** While playing, `'q'` quits and every other event continues. */
  function PlayResult(k: Key): (r: InputResult)
    ensures r == Quit <==> k == Char('q')
  {
    match k
    case Char(ch) => if ch == 'q' then Quit else Continue
    case _ => Continue
  }

  /**
   * On a banner screen, `'q'` ends the wait with `Quit` and Enter with
   * `Continue`; every other event is ignored (`None`).
   */
  function BannerResult(k: Key): (r: Option<InputResult>)
    ensures r == Some(Quit) <==> k == Char('q')
    ensures r == Some(Continue) <==> k == Enter
    ensures r.None? <==> k != Char('q') && k != Enter
  {
    match k
    case Char(ch) => if ch == 'q' then Some(Quit) else None
    case Enter => Some(Continue)
    case _ => None
  }

  /**
   * The wait on a banner screen over the keys `input`: the answer of the
   * first key that ends it and the number of keys read, or `None` and all
   * of them when none does (the source would then block for more input).
   */
  function WaitForKey(input: seq<Key>): (r: (Option<InputResult>, nat))
    ensures r.1 <= |input|
    ensures r.0.Some? ==> 0 < r.1 && BannerResult(input[r.1 - 1]) == r.0
    ensures r.0.None? ==> r.1 == |input|
    ensures forall j :: 0 <= j < |input| && j < (if r.0.Some? then r.1 - 1 else r.1) ==>
      BannerResult(input[j]).None?
  {
    if input == [] then (None, 0)
    else if BannerResult(input[0]).Some? then (BannerResult(input[0]), 1)
    else
      var rest := WaitForKey(input[1..]);
      (rest.0, rest.1 + 1)
  }

  /** The wait ends exactly at the first key that ends it. */
  lemma {:induction false} WaitForKeyAt(input: seq<Key>, i: nat)
    requires i < |input| && BannerResult(input[i]).Some?
    requires forall j :: 0 <= j < i ==> BannerResult(input[j]).None?
    ensures WaitForKey(input) == (BannerResult(input[i]), i + 1)
  {
    if i > 0 {
      WaitForKeyAt(input[1..], i - 1);
    }
  }

  /** The four updates of one simulation tick, in the order the tick performs them. */
  const TICK: seq<Step> := [PlayerLazerStep, AliensStep, AliensLasersStep, CollisionsStep]

  /** The updates of `n` ticks in a row. */
  function Ticks(n: nat): seq<Step>
  {
    if n == 0 then [] else Ticks(n - 1) + TICK
  }

  /** What `n` ticks of `update_and_render` do: the ticks, then one frame drawn if any tick ran. */
  function TickHistory(n: nat): seq<Step>
  {
    Ticks(n) + if n > 0 then [Rendered] else []
  }

  lemma {:induction false} TicksShape(n: nat)
    ensures |Ticks(n)| == 4 * n
    ensures forall j :: 0 <= j < 4 * n ==> Ticks(n)[j] == TICK[j % 4]
    ensures Rendered !in Ticks(n)
  {
    if n > 0 {
      TicksShape(n - 1);
      var t := Ticks(n);
      forall j | 0 <= j < 4 * n
        ensures t[j] == TICK[j % 4]
      {
        if j < 4 * (n - 1) {
          assert t[j] == Ticks(n - 1)[j];
        } else {
          assert j % 4 == j - 4 * (n - 1);
        }
      }
    }
  }

  /**
   * The history of `n` ticks: every tick performs the player-laser, alien,
   * alien-laser and collision updates in that order; a frame is drawn
   * exactly once, after the last tick, when at least one tick ran, and never
   * otherwise.
   */
  lemma TickHistoryShape(n: nat)
    ensures |TickHistory(n)| == 4 * n + (if n > 0 then 1 else 0)
    ensures forall j :: 0 <= j < 4 * n ==> TickHistory(n)[j] == TICK[j % 4]
    ensures n > 0 ==> TickHistory(n)[4 * n] == Rendered
    ensures multiset(TickHistory(n))[Rendered] == if n > 0 then 1 else 0
  {
    TicksShape(n);
    var h := TickHistory(n);
    assert forall j :: 0 <= j < 4 * n ==> h[j] == Ticks(n)[j];
    assert multiset(Ticks(n))[Rendered] == 0;
  }

  /** Where `handle_user_input` moves the ship for `key`: the arrows shift it, every other key leaves it. */
  function Steered(key: Key, position: seq<Coord>): seq<Coord>
  {
    match key
    case Left => MovedLeft(position)
    case Right => MovedRight(position)
    case _ => position
  }

  /** The laser after `handle_user_input` for `key`: Space fires from the ship's first cell when none is in flight. */
  function LazerAfterKey(key: Key, lazer: Option<Lazer>, position: seq<Coord>, prototype: seq<Coord>, now: int): Option<Lazer>
  {
    if key == Char(' ') && lazer.None? && |position| > 0 then Some(NewLazer(position[0], prototype, now))
    else lazer
  }

  /** The game: the world state, the time of the last tick, and the sprite assets. */
  class LigmaInvaders {
    const playerAsset: string
    const lazerAsset: string
    var lastUpdate: int
    var state: State
    /** The latest clock reading the game has seen. */
    ghost var clock: int
    /** The banner screens shown, in order. */
    ghost var screens: seq<GameState>

    ghost predicate Valid()
      reads this, state, state.player
    {
      && Loadable(playerAsset) && Loadable(lazerAsset)
      && state.Valid()
      && lastUpdate <= clock
      && (state.player.lazer.Some? ==> state.player.lazer.value.lastUpdate <= clock)
      && (state.player.lazer.Some? ==> state.player.lazer.value.timesSlowerThanCycle > 0)
    }

    /** `s` is the world as `State::new` builds it from the game's assets. */
    ghost predicate Initial(s: State)
      reads s, s.player
    {
      && Loadable(playerAsset) && Loadable(lazerAsset)
      && s.player.health == 3
      && s.player.lazer == None
      && s.player.position == ShiftPrototype(ParsePrototype(playerAsset).value, 1, 40)
      && s.lazerPrototype == ParsePrototype(lazerAsset).value
      && s.history == []
    }

    /** `LigmaInvaders::new` at time `now`. */
    constructor (playerAsset: string, lazerAsset: string, now: int)
      requires Loadable(playerAsset) && Loadable(lazerAsset)
      ensures Valid() && fresh(state) && fresh(state.player) && Initial(state)
      ensures lastUpdate == now && clock == now && screens == []
    {
      this.playerAsset := playerAsset;
      this.lazerAsset := lazerAsset;
      lastUpdate := now;
      state := new State(playerAsset, lazerAsset);
      clock := now;
      screens := [];
    }

    /** `set_last_update` */
    method SetLastUpdate(now: int)
      modifies this`lastUpdate
      ensures lastUpdate == now
    {
      lastUpdate := now;
    }

    /** `render`: draws a frame of the current state (the drawing itself is not modelled). */
    method Render()
      modifies state
      ensures state.history == old(state.history) + [Rendered]
    {
      state.history := state.history + [Rendered];
    }

    /**
     * `handle_user_input` for the key `key` read at time `now`.  The arrows
     * move the ship, Space fires, `'q'` quits and every other event is
     * ignored; only `'q'` answers `Quit`.
     */
    method HandleUserInput(key: Key, now: int) returns (r: InputResult)
      requires Valid() && now >= clock
      requires key == Char(' ') ==> state.CanShoot()
      modifies this, state.player
      ensures Valid() && clock == now
      ensures state == old(state) && lastUpdate == old(lastUpdate) && screens == old(screens)
      ensures r == PlayResult(key)
      ensures state.player.health == old(state.player.health)
      ensures state.player.position == Steered(key, old(state.player.position))
      ensures state.player.lazer ==
        LazerAfterKey(key, old(state.player.lazer), old(state.player.position), state.lazerPrototype, now)
    {
      clock := now;
      match key {
        case Left =>
          state.PlayerGoLeft();
          r := Continue;
        case Right =>
          state.PlayerGoRight();
          r := Continue;
        case Up =>
          r := Continue;
        case Char(ch) =>
          if ch == 'q' {
            r := Quit;
          } else if ch == ' ' {
            state.PlayerShoot(now);
            r := Continue;
          } else {
            r := Continue;
          }
        case _ =>
          r := Continue;
      }
    }

    /**
     * `render_game_over_screen`: shows the banner `screen`, then reads keys
     * from `input` until `'q'` (answer `Quit`) or Enter (a fresh world and
     * answer `Continue`); every other key is ignored.  Answers `None` when
     * `input` runs out first.  `used` is the number of keys read.
     */
    method RenderGameOverScreen(screen: GameState, input: seq<Key>) returns (r: Option<InputResult>, used: nat)
      requires Valid()
      modifies this
      ensures Valid() && clock == old(clock) && lastUpdate == old(lastUpdate)
      ensures screens == old(screens) + [screen]
      ensures (r, used) == WaitForKey(input)
      ensures r == Some(Continue) ==> fresh(state) && fresh(state.player) && Initial(state)
      ensures r != Some(Continue) ==> state == old(state)
    {
      screens := screens + [screen];
      var i := 0;
      while i < |input|
        invariant 0 <= i <= |input|
        invariant forall j :: 0 <= j < i ==> BannerResult(input[j]).None?
        invariant state == old(state) && clock == old(clock) && lastUpdate == old(lastUpdate)
        invariant screens == old(screens) + [screen]
        decreases |input| - i
      {
        match input[i] {
          case Char(ch) =>
            if ch == 'q' {
              WaitForKeyAt(input, i);
              return Some(Quit), i + 1;
            }
          case Enter =>
            WaitForKeyAt(input, i);
            state := new State(playerAsset, lazerAsset);
            return Some(Continue), i + 1;
          case _ =>
        }
        i := i + 1;
      }
      return None, |input|;
    }

    /**
     * One tick of the lag loop: `last_update` becomes `now`, then the
     * player's laser, the aliens and their lasers move and collisions are
     * applied, in that order.
     */
    method Tick(now: int)
      requires Valid() && now == clock
      modifies this`lastUpdate, state, state.player
      ensures Valid() && lastUpdate == now
      ensures state.history == old(state.history) + TICK
      ensures state.player.position == old(state.player.position)
      ensures state.player.health <= old(state.player.health)
      ensures state.player.lazer == None
           || (old(state.player.lazer).Some? && state.player.lazer == UpdatedLazer(old(state.player.lazer).value, now))
    {
      SetLastUpdate(now);
      state.UpdatePlayerLazer(now);
      state.UpdateAliens();
      state.UpdateAliensLasers();
      state.ApplyCollisions();
    }

    /**
     * The lag loop of `update_and_render`: each whole `MS_PER_UPDATE` of the
     * time elapsed since `last_update` runs one tick (reset `last_update`,
     * move the player's laser, the aliens, their lasers, then collisions), and
     * a frame is drawn once the remaining lag drops below `MS_PER_UPDATE`.
     * Every tick of the burst reads the same clock, so the laser's cadence,
     * measured on that clock, lets it step at most once per burst.
     */
    method CatchUp(now: int)
      requires Valid() && now >= clock
      modifies this, state, state.player
      ensures Valid() && clock == now
      ensures state == old(state) && screens == old(screens)
      ensures state.history == old(state.history) + TickHistory((now - old(lastUpdate)) / MS_PER_UPDATE)
      ensures lastUpdate == if now - old(lastUpdate) >= MS_PER_UPDATE then now else old(lastUpdate)
      ensures state.player.position == old(state.player.position)
      ensures state.player.health <= old(state.player.health)
      ensures old(state.player.lazer).None? ==> state.player.lazer.None?
      ensures now - old(lastUpdate) < MS_PER_UPDATE ==>
        state.player.health == old(state.player.health) && state.player.lazer == old(state.player.lazer)
      ensures old(state.player.lazer).Some? && now - old(lastUpdate) >= MS_PER_UPDATE ==>
        state.player.lazer == None || state.player.lazer == UpdatedLazer(old(state.player.lazer).value, now)
    {
      clock := now;
      var lag := now - lastUpdate;
      ghost var ticks: nat := 0;
      ghost var start := state.history;
      while lag >= MS_PER_UPDATE
        invariant Valid() && clock == now
        invariant state == old(state) && screens == old(screens)
        invariant 0 <= lag && lag + ticks * MS_PER_UPDATE == now - old(lastUpdate)
        invariant lastUpdate == if ticks > 0 then now else old(lastUpdate)
        invariant state.history == start + Ticks(ticks) + if ticks > 0 && lag < MS_PER_UPDATE then [Rendered] else []
        invariant state.player.position == old(state.player.position)
        invariant state.player.health <= old(state.player.health)
        invariant old(state.player.lazer).None? ==> state.player.lazer.None?
        invariant ticks == 0 ==>
          state.player.health == old(state.player.health) && state.player.lazer == old(state.player.lazer)
        invariant old(state.player.lazer).Some? && ticks > 0 ==>
          state.player.lazer == None || state.player.lazer == UpdatedLazer(old(state.player.lazer).value, now)
        decreases lag
      {
        assert state.history == start + Ticks(ticks);
        Tick(now);
        lag := lag - MS_PER_UPDATE;
        ticks := ticks + 1;
        assert state.history == start + Ticks(ticks);

        if lag < MS_PER_UPDATE {
          Render();
        }
      }
      assert ticks == (now - old(lastUpdate)) / MS_PER_UPDATE;
    }

    /**
     * `update_and_render` at time `now`, with `invaded` and `alienCount` the
     * answers of the alien queries.  A dead player or an invasion shows the
     * Lost banner, otherwise an empty formation the Won banner; no tick runs
     * then.  Otherwise the elapsed time is cut into whole ticks: exactly
     * `elapsed / MS_PER_UPDATE` ticks run, a frame is drawn after the last
     * one, and the time of the last tick becomes the new reference, so a
     * remainder below `MS_PER_UPDATE` is not carried over.
     */
    method UpdateAndRender(now: int, invaded: bool, alienCount: nat, input: seq<Key>)
      returns (r: Option<InputResult>, used: nat)
      requires Valid() && now >= clock
      modifies this, state, state.player
      ensures Valid() && clock == now
      ensures old(state.player.health) == 0 || invaded ==> screens == old(screens) + [Lost]
      ensures !(old(state.player.health) == 0 || invaded) && alienCount == 0 ==>
        screens == old(screens) + [Won]
      ensures screens != old(screens) ==>
        && (r, used) == WaitForKey(input)
        && lastUpdate == old(lastUpdate)
        && if r == Some(Continue) then fresh(state) && Initial(state)
           else
             && state == old(state) && state.history == old(state.history)
             && state.player.position == old(state.player.position)
             && state.player.health == old(state.player.health)
             && state.player.lazer == old(state.player.lazer)
      ensures !(old(state.player.health) == 0 || invaded) && alienCount != 0 ==>
        && screens == old(screens)
        && r == Some(Continue) && used == 0
        && state == old(state)
        && state.history == old(state.history) + TickHistory((now - old(lastUpdate)) / MS_PER_UPDATE)
        && lastUpdate == (if now - old(lastUpdate) >= MS_PER_UPDATE then now else old(lastUpdate))
        && state.player.position == old(state.player.position)
        && state.player.health <= old(state.player.health)
        && (old(state.player.lazer).None? ==> state.player.lazer.None?)
        && (now - old(lastUpdate) < MS_PER_UPDATE ==>
              state.player.health == old(state.player.health) && state.player.lazer == old(state.player.lazer))
        && (old(state.player.lazer).Some? && now - old(lastUpdate) >= MS_PER_UPDATE ==>
              state.player.lazer == None || state.player.lazer == UpdatedLazer(old(state.player.lazer).value, now))
    {
      clock := now;
      if state.player.health == 0 || invaded {
        r, used := RenderGameOverScreen(Lost, input);
        return;
      }
      if alienCount == 0 {
        r, used := RenderGameOverScreen(Won, input);
        return;
      }
      CatchUp(now);
      r, used := Some(Continue), 0;
    }

    /**
     * One pass of the loop in `start` at time `now`: the key `polled` the
     * poll delivered, if any, is handled first; `'q'` ends the game before
     * any simulation runs; otherwise `update_and_render` follows.
     */
    method Frame(now: int, polled: Option<Key>, invaded: bool, alienCount: nat, input: seq<Key>)
      returns (r: Option<InputResult>, used: nat)
      requires Valid() && now >= clock
      requires polled == Some(Char(' ')) ==> state.CanShoot()
      modifies this, state, state.player
      ensures Valid() && clock == now
      ensures polled == Some(Char('q')) ==>
        && r == Some(Quit) && used == 0
        && state == old(state) && state.history == old(state.history)
        && lastUpdate == old(lastUpdate) && screens == old(screens)
        && state.player.position == old(state.player.position)
        && state.player.health == old(state.player.health)
        && state.player.lazer == old(state.player.lazer)
      ensures polled != Some(Char('q')) && !(old(state.player.health) == 0 || invaded) && alienCount != 0
              && now - old(lastUpdate) < MS_PER_UPDATE ==>
        state.player.health == old(state.player.health)
      ensures polled != Some(Char('q')) && !(old(state.player.health) == 0 || invaded) && alienCount != 0 ==>
        && r == Some(Continue) && used == 0 && state == old(state)
        && state.history == old(state.history) + TickHistory((now - old(lastUpdate)) / MS_PER_UPDATE)
        && state.player.position == (if polled.Some? then Steered(polled.value, old(state.player.position))
                                     else old(state.player.position))
        && state.player.health <= old(state.player.health)
        && var armed := if polled.Some?
             then LazerAfterKey(polled.value, old(state.player.lazer), old(state.player.position), state.lazerPrototype, now)
             else old(state.player.lazer);
           && (armed.None? ==> state.player.lazer.None?)
           && (now - old(lastUpdate) < MS_PER_UPDATE ==> state.player.lazer == armed)
           && (armed.Some? && now - old(lastUpdate) >= MS_PER_UPDATE ==>
                 state.player.lazer == None || state.player.lazer == UpdatedLazer(armed.value, now))
      ensures polled != Some(Char('q')) && (old(state.player.health) == 0 || invaded || alienCount == 0) ==>
        && screens == old(screens) + [if old(state.player.health) == 0 || invaded then Lost else Won]
        && (r, used) == WaitForKey(input)
        && lastUpdate == old(lastUpdate)
        && (r == Some(Continue) ==> fresh(state) && Initial(state))
        && (r != Some(Continue) ==>
              && state == old(state)
              && state.player.position == (if polled.Some? then Steered(polled.value, old(state.player.position))
                                           else old(state.player.position))
              && state.player.health == old(state.player.health)
              && state.player.lazer == if polled.Some?
                   then LazerAfterKey(polled.value, old(state.player.lazer), old(state.player.position), state.lazerPrototype, now)
                   else old(state.player.lazer))
    {
      if polled.Some? {
        var handled := HandleUserInput(polled.value, now);
        if handled == Quit {
          return Some(Quit), 0;
        }
      }
      r, used := UpdateAndRender(now, invaded, alienCount, input);
    }
  }
}

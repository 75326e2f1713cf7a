/**
 * The second version of the game: the first one plus a saved
 * configuration, a high score, pause, cheat mode (a hit shows an indicator
 * instead of ending the game), and a point awarded when the next volley is
 * fired instead of when the sky is empty.
 *
 * Each state-changing method is specified by a function on `State`, the
 * value of every mutable field; the lemmas at the end of the class state
 * what those functions promise.
 */
module GameBackup2 {
  import opened Geometry
  import opened Entities
  import opened Rules
  import opened Config

  /** The mutable fields of a game, as one value. */
  datatype State = State(
    score: int,
    highScore: int,
    gameRunning: bool,
    gamePaused: bool,
    cheatMode: bool,
    showHitIndicator: bool,
    hitIndicatorTime: int,
    lastFireballTime: int,
    fireballCooldown: int,
    waveSurvived: bool,
    alien: Alien,
    hero: Hero,
    fireballs: seq<Fireball>)

  class Game {
    const config: Settings
    const arena: Arena
    const center: Vec
    /** Radius of the hero's orbit: 85% of the shorter side, halved. */
    const circleRadius: real

    var score: int
    var highScore: int
    var gameRunning: bool
    var gamePaused: bool
    var cheatMode: bool
    var showHitIndicator: bool
    var hitIndicatorTime: int
    var lastFireballTime: int
    var fireballCooldown: int
    /**
     * Set when a point is awarded and cleared by the volley fired right
     * after it, so between calls it is always false.
     */
    var waveSurvived: bool
    var alien: Alien
    var hero: Hero
    var fireballs: seq<Fireball>

    ghost function Snapshot(): State
      reads this
    {
      State(score, highScore, gameRunning, gamePaused, cheatMode, showHitIndicator, hitIndicatorTime,
            lastFireballTime, fireballCooldown, waveSurvived, alien, hero, fireballs)
    }

    /** The invariant every handler and every tick keeps. */
    ghost predicate Sound(s: State)
    {
      && Complete(config)
      && 0 <= s.score
      && !s.waveSurvived
      && (s.hero.direction == 1 || s.hero.direction == -1)
      && s.hero.speed == config.hero["speed"] && s.hero.radius == 8.0
      && s.alien.pos == center && s.alien.rotationSpeed == config.alien["rotationSpeed"]
      && CooldownFloor <= s.fireballCooldown <= InitialCooldown
    }

    ghost predicate Valid()
      reads this
    {
      Sound(Snapshot())
    }

    /** Fireball speed from the configuration. */
    function FireballSpeed(): real
      requires Complete(config)
    {
      config.fireball["speed"]
    }

    /** Fireball radius: half the configured diameter. */
    function FireballRadius(): real
      requires Complete(config)
    {
      config.fireball["size"] / 2.0
    }

    /**
     * A new game on a `width` by `height` canvas. `saved` is the parsed
     * saved configuration, `storedHighScore` the stored high score, and
     * `firstVolleyAt` the randomised start time the source computes from
     * the clock.
     */
    constructor (width: real, height: real, saved: Option<Saved>, storedHighScore: int, firstVolleyAt: int)
      ensures Valid()
      ensures config == Merge(saved)
      ensures arena == Arena(width, height) && center == Vec(width / 2.0, height / 2.0)
      ensures circleRadius == (if width < height then width else height) * 0.85 / 2.0
      ensures Snapshot() == State(0, storedHighScore, true, false, false, false, 0, firstVolleyAt, InitialCooldown, false,
                                  Alien(center, config.alien["size"] / 2.0, 0.0, config.alien["rotationSpeed"]),
                                  Hero(0.0, 8.0, config.hero["speed"], 1), [])
    {
      var merged := Merge(saved);
      config := merged;
      arena := Arena(width, height);
      center := Vec(width / 2.0, height / 2.0);
      circleRadius := (if width < height then width else height) * 0.85 / 2.0;
      score := 0;
      highScore := storedHighScore;
      gameRunning := true;
      gamePaused := false;
      cheatMode := false;
      showHitIndicator := false;
      hitIndicatorTime := 0;
      lastFireballTime := firstVolleyAt;
      fireballCooldown := InitialCooldown;
      waveSurvived := false;
      alien := Alien(Vec(width / 2.0, height / 2.0), merged.alien["size"] / 2.0, 0.0, merged.alien["rotationSpeed"]);
      hero := Hero(0.0, 8.0, merged.hero["speed"], 1);
      fireballs := [];
    }

    // ---------------------------------------------------------------
    // The tick, as functions on states
    // ---------------------------------------------------------------

    /**
     * `createFireballs`: once more than the cooldown has passed since the
     * last volley, award the point for the previous volley (unless in
     * cheat mode or when `lastFireballTime` is not positive), raise the high score
     * to it, fire a volley and restart the timer.
     */
    function Fired(s: State, now: int): State
      requires Complete(config)
    {
      if now - s.lastFireballTime > s.fireballCooldown then Launched(Awarded(s), now) else s
    }

    /**
     * The point for the previous volley, unless in cheat mode, when
     * `lastFireballTime` is not positive or when it was already given; a beaten high score
     * follows the score.
     */
    function Awarded(s: State): State
    {
      if s.lastFireballTime > 0 && !s.waveSurvived && !s.cheatMode then
        var score := s.score + 1;
        s.(score := score, waveSurvived := true, highScore := if score > s.highScore then score else s.highScore)
      else s
    }

    /** The volley itself: three fireballs from the alien, the timer restarted, a new wave open. */
    function Launched(s: State, now: int): State
      requires Complete(config)
    {
      s.(fireballs := s.fireballs + Volley(s.alien.pos, s.alien.rotation, FireballSpeed(), FireballRadius()),
         lastFireballTime := now,
         waveSurvived := false)
    }

    /** `updateFireballs`: every fireball moves, and those past their margin are dropped. */
    function Pruned(s: State, trig: Trig): State
    {
      s.(fireballs := Advance(s.fireballs, trig, SizedMargin, arena))
    }

    /** Some fireball touches the hero where it stands on the orbit. */
    predicate HeroHit(s: State, trig: Trig)
    {
      AnyHit(OrbitPoint(center, circleRadius, s.hero.angle, trig), s.hero.radius, s.fireballs)
    }

    /**
     * `checkCollisions`: on a hit, cheat mode raises the indicator stamped
     * `now`; otherwise the game is over.
     */
    function Collided(s: State, now: int, trig: Trig): State
    {
      if HeroHit(s, trig) then
        if s.cheatMode then s.(showHitIndicator := true, hitIndicatorTime := now)
        else s.(gameRunning := false)
      else s
    }

    /** The indicator goes down once it has been up for more than 500 ms. */
    function Expired(s: State, now: int): State
    {
      if s.showHitIndicator && now - s.hitIndicatorTime > HitIndicatorMillis then s.(showHitIndicator := false)
      else s
    }

    /** One call of `update` with the clock at `now`. */
    function Tick(s: State, now: int, trig: Trig): State
      requires Complete(config)
    {
      if !s.gameRunning || s.gamePaused then s
      else
        var moved := s.(alien := Spun(s.alien), hero := Stepped(s.hero));
        var t := Expired(Collided(Pruned(Fired(moved, now), trig), now, trig), now);
        t.(fireballCooldown := Harden(t.fireballCooldown, t.score))
    }

    // ---------------------------------------------------------------
    // What the tick promises
    // ---------------------------------------------------------------

    /**
     * `createFireballs`: nothing happens before the cooldown has elapsed;
     * after it exactly one volley is appended, the timer restarts, and the
     * score rises by one unless in cheat mode, when `lastFireballTime` is
     * not positive or when the wave was already scored, with the high score
     * following a score that beats it.
     */
    lemma FireRule(s: State, now: int)
      requires Complete(config)
      ensures var r := Fired(s, now);
        && (now - s.lastFireballTime <= s.fireballCooldown ==> r == s)
        && (now - s.lastFireballTime > s.fireballCooldown ==>
              && r.fireballs == s.fireballs + Volley(s.alien.pos, s.alien.rotation, FireballSpeed(), FireballRadius())
              && |r.fireballs| == |s.fireballs| + 3
              && r.lastFireballTime == now && !r.waveSurvived
              && r.score == s.score + (if s.lastFireballTime > 0 && !s.waveSurvived && !s.cheatMode then 1 else 0))
        && (r.score > s.score ==> r.highScore == (if r.score > s.highScore then r.score else s.highScore))
        && (r.score == s.score ==> r.highScore == s.highScore)
        && r.highScore >= s.highScore
        // the alien, the hero, the flags and the cooldown are left alone
        && r == s.(score := r.score, highScore := r.highScore, fireballs := r.fireballs,
                   lastFireballTime := r.lastFireballTime, waveSurvived := r.waveSurvived)
    {
    }

    /**
     * `checkCollisions`: with no hit nothing changes; a hit in cheat mode
     * raises the indicator stamped `now`, any other hit ends the game; the
     * score, the fireballs and the hero are never touched.
     */
    lemma CollisionRule(s: State, now: int, trig: Trig)
      ensures var r := Collided(s, now, trig);
        && (!HeroHit(s, trig) ==> r == s)
        && (HeroHit(s, trig) && s.cheatMode ==> r == s.(showHitIndicator := true, hitIndicatorTime := now))
        && (HeroHit(s, trig) && !s.cheatMode ==> r == s.(gameRunning := false))
        && r.score == s.score && r.fireballs == s.fireballs && r.hero == s.hero
    {
    }

    /** A tick keeps the invariant. */
    lemma TickKeepsSound(s: State, now: int, trig: Trig)
      requires Sound(s)
      ensures Sound(Tick(s, now, trig))
    {
      if s.gameRunning && !s.gamePaused {
        var moved := s.(alien := Spun(s.alien), hero := Stepped(s.hero));
        assert Sound(moved);
        FireRule(moved, now);
        var m := Pruned(Fired(moved, now), trig);
        assert Sound(m);
        CollisionRule(m, now, trig);
      }
    }

    /**
     * A tick of a running game turns the alien, moves the hero, fires when
     * the cooldown has elapsed and moves the fireballs; a stopped or paused
     * game does not change at all.
     */
    lemma TickMotion(s: State, now: int, trig: Trig)
      requires Sound(s)
      ensures var r := Tick(s, now, trig);
        && (!s.gameRunning || s.gamePaused ==> r == s)
        && (s.gameRunning && !s.gamePaused ==>
              var fired := now - s.lastFireballTime > s.fireballCooldown;
              && r.alien == Spun(s.alien) && r.hero == Stepped(s.hero)
              && r.lastFireballTime == (if fired then now else s.lastFireballTime)
              && r.fireballs == Advance(s.fireballs + (if fired then Volley(r.alien.pos, r.alien.rotation, FireballSpeed(), FireballRadius()) else []),
                                        trig, SizedMargin, arena)
              && |r.fireballs| <= |s.fireballs| + 3
              && r.cheatMode == s.cheatMode && !r.gamePaused)
    {
      if s.gameRunning && !s.gamePaused {
        var moved := s.(alien := Spun(s.alien), hero := Stepped(s.hero));
        var fired := now - s.lastFireballTime > s.fireballCooldown;
        FireRule(moved, now);
        assert Fired(moved, now).fireballs
            == s.fireballs + (if fired then Volley(moved.alien.pos, moved.alien.rotation, FireballSpeed(), FireballRadius()) else []);
      }
    }

    /**
     * Scoring over a tick: exactly one point when a running game fires
     * outside cheat mode with a positive `lastFireballTime`, none otherwise; the
     * high score never drops and follows a score that beats it.
     */
    lemma TickScore(s: State, now: int, trig: Trig)
      requires Sound(s)
      ensures var r := Tick(s, now, trig);
        && r.score == s.score + (if s.gameRunning && !s.gamePaused && now - s.lastFireballTime > s.fireballCooldown
                                    && s.lastFireballTime > 0 && !s.cheatMode then 1 else 0)
        && r.highScore == (if r.score > s.score && r.score > s.highScore then r.score else s.highScore)
        && r.highScore >= s.highScore
    {
      if s.gameRunning && !s.gamePaused {
        FireRule(s.(alien := Spun(s.alien), hero := Stepped(s.hero)), now);
      }
    }

    /**
     * The guard `lastFireballTime > 0` never holds back the first volley,
     * because the start time is a positive clock reading: a fresh game
     * with no fireball fired yet still earns a point when its first
     * volley leaves.
     */
    lemma FirstVolleyScores(s: State, now: int, trig: Trig)
      requires Sound(s) && s.gameRunning && !s.gamePaused && !s.cheatMode
      requires s.score == 0 && s.fireballs == [] && 0 < s.lastFireballTime
      requires now - s.lastFireballTime > s.fireballCooldown
      ensures Tick(s, now, trig).score == 1
    {
      TickScore(s, now, trig);
    }

    /**
     * Collisions over a tick, judged on the final positions: outside cheat
     * mode a hit ends the game and nothing else does; in cheat mode the
     * game goes on and a hit leaves the indicator up, stamped `now`; an
     * indicator still up at the end of a tick is at most 500 ms old.
     */
    lemma TickCollision(s: State, now: int, trig: Trig)
      requires Sound(s) && s.gameRunning && !s.gamePaused
      ensures var r := Tick(s, now, trig);
        && (r.gameRunning <==> !(HeroHit(r, trig) && !s.cheatMode))
        && (HeroHit(r, trig) && s.cheatMode ==> r.showHitIndicator && r.hitIndicatorTime == now)
        && (!HeroHit(r, trig) ==> r.hitIndicatorTime == s.hitIndicatorTime)
        && (r.showHitIndicator ==> now - r.hitIndicatorTime <= HitIndicatorMillis)
    {
      var moved := s.(alien := Spun(s.alien), hero := Stepped(s.hero));
      var m := Pruned(Fired(moved, now), trig);
      FireRule(moved, now);
      CollisionRule(m, now, trig);
      var t := Expired(Collided(m, now, trig), now);
      assert HeroHit(t, trig) == HeroHit(m, trig);
    }

    /**
     * The difficulty rule over a tick: the cooldown never rises, never
     * passes 1000 ms, and drops only when the score after the tick is a
     * positive multiple of 5.
     */
    lemma TickCooldown(s: State, now: int, trig: Trig)
      requires Sound(s)
      ensures var r := Tick(s, now, trig);
        && CooldownFloor <= r.fireballCooldown <= s.fireballCooldown
        && (r.fireballCooldown < s.fireballCooldown ==> r.score > 0 && r.score % 5 == 0)
        // the rule runs on every running tick, judged on the score after it
        && (s.gameRunning && !s.gamePaused ==> r.fireballCooldown == Harden(s.fireballCooldown, r.score))
    {
      if s.gameRunning && !s.gamePaused {
        FireRule(s.(alien := Spun(s.alien), hero := Stepped(s.hero)), now);
      }
    }

    /**
     * Angles over a tick: a hero angle in [0, 2π] stays there when the
     * configured speed is at most a full turn, and so does the alien's
     * rotation when its configured spin is between 0 and a full turn.
     */
    lemma TickAngles(s: State, now: int, trig: Trig)
      requires Sound(s)
      requires 0.0 <= s.hero.angle <= TwoPi && -TwoPi <= config.hero["speed"] <= TwoPi
      requires 0.0 <= s.alien.rotation <= TwoPi && 0.0 <= config.alien["rotationSpeed"] <= TwoPi
      ensures var r := Tick(s, now, trig);
        0.0 <= r.hero.angle <= TwoPi && 0.0 <= r.alien.rotation <= TwoPi
    {
      TickMotion(s, now, trig);
    }

    // ---------------------------------------------------------------
    // Handlers and the tick, as methods on the game
    // ---------------------------------------------------------------

    /** A click or a touch: the hero turns round while the game runs, paused or not. */
    method OnPointer()
      requires Valid()
      modifies this`hero
      ensures Valid()
      ensures Snapshot() == if gameRunning then old(Snapshot()).(hero := Turned(old(hero))) else old(Snapshot())
    {
      if gameRunning {
        hero := hero.(direction := -hero.direction);
      }
    }

    /**
     * A key press: Space and Enter turn the hero round while the game runs
     * and is not paused, P toggles pause, C toggles cheat mode.
     */
    method OnKeyDown(code: string)
      requires Valid()
      modifies this`hero, this`gamePaused, this`cheatMode
      ensures Valid()
      ensures Snapshot() ==
        if (code == "Space" || code == "Enter") && gameRunning && !old(gamePaused) then old(Snapshot()).(hero := Turned(old(hero)))
        else if code == "KeyP" && gameRunning then old(Snapshot()).(gamePaused := !old(gamePaused))
        else if code == "KeyC" then old(Snapshot()).(cheatMode := !old(cheatMode))
        else old(Snapshot())
    {
      if code == "Space" || code == "Enter" {
        if gameRunning && !gamePaused {
          hero := hero.(direction := -hero.direction);
        }
      } else if code == "KeyP" {
        TogglePause();
      } else if code == "KeyC" {
        ToggleCheatMode();
      }
    }

    /** Scores the previous volley and fires the next, as `Fired` says. */
    method CreateFireballs(now: int)
      requires Valid()
      modifies this`score, this`highScore, this`waveSurvived, this`fireballs, this`lastFireballTime
      ensures Valid()
      ensures Snapshot() == Fired(old(Snapshot()), now)
    {
      if now - lastFireballTime > fireballCooldown {
        AwardWave();
        PushVolley();
        lastFireballTime := now;
        waveSurvived := false;
      }
    }

    /**
     * The scoring block of `createFireballs`: after a survived volley,
     * outside cheat mode and with a positive `lastFireballTime`, the score rises
     * and a beaten high score follows it.
     */
    method AwardWave()
      modifies this`score, this`highScore, this`waveSurvived
      ensures Snapshot() == Awarded(old(Snapshot()))
    {
      if lastFireballTime > 0 && !waveSurvived && !cheatMode {
        score := score + 1;
        waveSurvived := true;
        if score > highScore {
          highScore := score;
        }
      }
    }

    /** The push loop of `createFireballs`: three fireballs a third of a turn apart. */
    method PushVolley()
      requires Complete(config)
      modifies this`fireballs
      ensures fireballs == old(fireballs) + Volley(alien.pos, alien.rotation, FireballSpeed(), FireballRadius())
    {
      ghost var volley := Volley(alien.pos, alien.rotation, FireballSpeed(), FireballRadius());
      for i := 0 to 3
        invariant fireballs == old(fireballs) + volley[..i]
      {
        var angle := (TwoPi / 3.0) * (i as real) + alien.rotation;
        fireballs := fireballs + [Fireball(alien.pos, angle, FireballSpeed(), FireballRadius(), 0)];
      }
      assert volley[..3] == volley;
    }

    /**
     * Move every fireball one tick, walking the list backwards and splicing
     * out each one that is more than its radius plus 10 units off screen.
     */
    method UpdateFireballs(trig: Trig)
      requires Valid()
      modifies this`fireballs
      ensures Valid()
      ensures Snapshot() == Pruned(old(Snapshot()), trig)
    {
      var i := |fireballs|;
      while i > 0
        invariant 0 <= i <= |old(fireballs)|
        invariant fireballs == old(fireballs)[..i] + Advance(old(fireballs)[i..], trig, SizedMargin, arena)
      {
        i := i - 1;
        var f := fireballs[i];
        var u := trig(f.angle);
        var fireball := f.(pos := Vec(f.pos.x + u.x * f.speed, f.pos.y + u.y * f.speed), life := f.life + 1);
        var margin := fireball.radius + 10.0;
        assert f == old(fireballs)[i];
        MovedBy(f, trig, u);
        AdvanceFrom(old(fireballs), i, trig, SizedMargin, arena);
        Spliced(old(fireballs), i, Advance(old(fireballs)[i + 1..], trig, SizedMargin, arena), [fireball]);
        if fireball.pos.x < -margin || fireball.pos.x > arena.width + margin
           || fireball.pos.y < -margin || fireball.pos.y > arena.height + margin {
          fireballs := fireballs[..i] + fireballs[i + 1..];
        } else {
          fireballs := fireballs[..i] + [fireball] + fireballs[i + 1..];
        }
      }
      assert old(fireballs)[0..] == old(fireballs);
    }

    /** Move the hero one step along the orbit and fold the angle back into [0, 2π]. */
    method UpdateHero()
      requires Valid()
      modifies this`hero
      ensures Valid()
      ensures Snapshot() == old(Snapshot()).(hero := Stepped(old(hero)))
    {
      hero := hero.(angle := hero.angle + hero.speed * (hero.direction as real));
      if hero.angle > TwoPi {
        hero := hero.(angle := hero.angle - TwoPi);
      } else if hero.angle < 0.0 {
        hero := hero.(angle := hero.angle + TwoPi);
      }
    }

    /** Turn the alien by its spin, folding back from above 2π. */
    method UpdateAlien()
      requires Valid()
      modifies this`alien
      ensures Valid()
      ensures Snapshot() == old(Snapshot()).(alien := Spun(old(alien)))
    {
      alien := alien.(rotation := alien.rotation + alien.rotationSpeed);
      if alien.rotation > TwoPi {
        alien := alien.(rotation := alien.rotation - TwoPi);
      }
    }

    /** The backward scan for the first fireball touching the hero, with its consequence. */
    method CheckCollisions(now: int, trig: Trig)
      requires Valid()
      modifies this`gameRunning, this`showHitIndicator, this`hitIndicatorTime
      ensures Valid()
      ensures Snapshot() == Collided(old(Snapshot()), now, trig)
    {
      var hit, _ := FindHit(OrbitPoint(center, circleRadius, hero.angle, trig), hero.radius, fireballs);
      if hit {
        if cheatMode {
          showHitIndicator := true;
          hitIndicatorTime := now;
        } else {
          GameOver();
        }
        return;
      }
    }

    /**
     * One tick: turn the alien, move the hero, maybe score and fire, move
     * the fireballs, resolve collisions, expire the hit indicator, then
     * apply the difficulty rule. Nothing happens when the game is over or
     * paused.
     */
    method Update(now: int, trig: Trig)
      requires Valid()
      modifies this
      ensures Valid()
      ensures Snapshot() == Tick(old(Snapshot()), now, trig)
    {
      if !gameRunning || gamePaused {
        return;
      }
      UpdateAlien();
      UpdateHero();
      CreateFireballs(now);
      UpdateFireballs(trig);
      CheckCollisions(now, trig);
      ExpireHitIndicator(now);
      IncreaseDifficulty();
    }

    /** The hit indicator goes down once it has been up for more than 500 ms. */
    method ExpireHitIndicator(now: int)
      requires Valid()
      modifies this`showHitIndicator
      ensures Valid()
      ensures Snapshot() == Expired(old(Snapshot()), now)
    {
      if showHitIndicator {
        if now - hitIndicatorTime > HitIndicatorMillis {
          showHitIndicator := false;
        }
      }
    }

    /** The difficulty rule: while the score is a positive multiple of 5 the cooldown shrinks. */
    method IncreaseDifficulty()
      requires Valid()
      modifies this`fireballCooldown
      ensures Valid()
      ensures Snapshot() == old(Snapshot()).(fireballCooldown := Harden(old(fireballCooldown), score))
    {
      if score > 0 && score % 5 == 0 {
        fireballCooldown := if fireballCooldown - 100 > CooldownFloor then fireballCooldown - 100 else CooldownFloor;
      }
    }

    /** Pause or resume; ignored once the game is over. */
    method TogglePause()
      requires Valid()
      modifies this`gamePaused
      ensures Valid()
      ensures Snapshot() == if gameRunning then old(Snapshot()).(gamePaused := !old(gamePaused)) else old(Snapshot())
    {
      if !gameRunning {
        return;
      }
      gamePaused := !gamePaused;
    }

    /** Cheat mode on or off, at any time. */
    method ToggleCheatMode()
      requires Valid()
      modifies this`cheatMode
      ensures Valid()
      ensures Snapshot() == old(Snapshot()).(cheatMode := !old(cheatMode))
    {
      cheatMode := !cheatMode;
    }

    /** The game-over state change; the final-score display is left out. */
    method GameOver()
      requires Valid()
      modifies this`gameRunning
      ensures Valid()
      ensures Snapshot() == old(Snapshot()).(gameRunning := false)
    {
      gameRunning := false;
    }
  }
}

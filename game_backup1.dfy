/**
 * The first version of the game: one hero on the orbit, a volley every
 * cooldown, a point for each volley survived, and the first hit ends the
 * game. There is no pause, no cheat mode and no configuration.
 *
 * As in the later versions, each state-changing method is specified by a
 * function on `State`, and the lemmas state what those functions promise.
 */
module GameBackup1 {
  import opened Geometry
  import opened Entities
  import opened Rules

  const HeroSpeed: real := 0.03
  const AlienSpin: real := 0.02
  const FireballSpeed: real := 3.0
  const FireballRadius: real := 8.0

  /**
   * The mutable fields of a game, as one value; `volleys` counts the
   * volleys fired so far, which the game keeps as a ghost field.
   */
  datatype State = State(
    score: int,
    gameRunning: bool,
    lastFireballTime: int,
    fireballCooldown: int,
    waveSurvived: bool,
    alien: Alien,
    hero: Hero,
    fireballs: seq<Fireball>,
    volleys: nat)

  class Game {
    const arena: Arena
    const center: Vec
    /** Radius of the hero's orbit: 85% of the shorter side, halved. */
    const circleRadius: real

    var score: int
    var gameRunning: bool
    var lastFireballTime: int
    var fireballCooldown: int
    /** Whether the point for the current volley has been awarded. */
    var waveSurvived: bool
    var alien: Alien
    var hero: Hero
    var fireballs: seq<Fireball>
    /** Volleys fired so far, to state the one-point-per-volley invariant. */
    ghost var volleys: nat

    ghost function Snapshot(): State
      reads this
    {
      State(score, gameRunning, lastFireballTime, fireballCooldown, waveSurvived, alien, hero, fireballs, volleys)
    }

    /** Every fireball is between 0 and 300 ticks old. */
    ghost predicate Young(fs: seq<Fireball>)
    {
      forall f :: f in fs ==> 0 <= f.life <= 300
    }

    /**
     * The invariant every handler and every tick keeps: the hero and the
     * alien keep their speeds and their angles in [0, 2π], the cooldown
     * stays in [1000, 2000], no fireball outlives 300 ticks, and the score
     * is at most one point per volley, plus the one the empty sky gives
     * before the first.
     */
    ghost predicate Sound(s: State)
    {
      && 0 <= s.score
      && (s.hero.direction == 1 || s.hero.direction == -1)
      && s.hero.speed == HeroSpeed && s.hero.radius == 8.0 && 0.0 <= s.hero.angle <= TwoPi
      && s.alien.pos == center && s.alien.rotationSpeed == AlienSpin && 0.0 <= s.alien.rotation <= TwoPi
      && CooldownFloor <= s.fireballCooldown <= InitialCooldown
      && Young(s.fireballs)
      && s.score + (if s.waveSurvived then 0 else 1) <= s.volleys + 1
    }

    ghost predicate Valid()
      reads this
    {
      Sound(Snapshot())
    }

    /**
     * A new game on a `width` by `height` canvas; `firstVolleyAt` stands for
     * the randomised start time the source computes from the clock.
     */
    constructor (width: real, height: real, firstVolleyAt: int)
      ensures Valid()
      ensures arena == Arena(width, height) && center == Vec(width / 2.0, height / 2.0)
      ensures circleRadius == (if width < height then width else height) * 0.85 / 2.0
      ensures Snapshot() == State(0, true, firstVolleyAt, InitialCooldown, false,
                                  Alien(center, 30.0, 0.0, AlienSpin), Hero(0.0, 8.0, HeroSpeed, 1), [], 0)
    {
      arena := Arena(width, height);
      center := Vec(width / 2.0, height / 2.0);
      circleRadius := (if width < height then width else height) * 0.85 / 2.0;
      score := 0;
      gameRunning := true;
      lastFireballTime := firstVolleyAt;
      fireballCooldown := InitialCooldown;
      waveSurvived := false;
      alien := Alien(Vec(width / 2.0, height / 2.0), 30.0, 0.0, AlienSpin);
      hero := Hero(0.0, 8.0, HeroSpeed, 1);
      fireballs := [];
      volleys := 0;
    }

    // ---------------------------------------------------------------
    // The tick, as functions on states
    // ---------------------------------------------------------------

    /** The first two steps of a tick: the alien turns and the hero steps. */
    function Moving(s: State): State
    {
      s.(alien := Spun(s.alien), hero := Stepped(s.hero))
    }

    /**
     * `createFireballs`: once more than the cooldown has passed since the
     * last volley, three fireballs leave the alien a third of a turn
     * apart, the timer restarts and a new volley is open for scoring.
     */
    function Fired(s: State, now: int): State
    {
      if now - s.lastFireballTime > s.fireballCooldown then
        s.(fireballs := s.fireballs + Volley(s.alien.pos, s.alien.rotation, FireballSpeed, FireballRadius),
           lastFireballTime := now,
           waveSurvived := false,
           volleys := s.volleys + 1)
      else s
    }

    /** `updateFireballs`: every fireball moves and ages, and those 50 units off screen or too old are dropped. */
    function Pruned(s: State, trig: Trig): State
    {
      s.(fireballs := Advance(s.fireballs, trig, FixedMarginOrOld, arena))
    }

    /** Some fireball touches the hero where it stands on the orbit. */
    predicate HeroHit(s: State, trig: Trig)
    {
      AnyHit(OrbitPoint(center, circleRadius, s.hero.angle, trig), s.hero.radius, s.fireballs)
    }

    /**
     * `checkCollisions`: a hit ends the game with no point; otherwise an
     * empty sky earns the current volley its point, once.
     */
    function Collided(s: State, trig: Trig): State
    {
      if HeroHit(s, trig) then s.(gameRunning := false)
      else if |s.fireballs| == 0 && !s.waveSurvived then s.(score := s.score + 1, waveSurvived := true)
      else s
    }

    /** The difficulty rule at the end of `update`. */
    function Hardened(s: State): State
    {
      s.(fireballCooldown := Harden(s.fireballCooldown, s.score))
    }

    /** One call of `update` with the clock at `now`. */
    function Tick(s: State, now: int, trig: Trig): State
    {
      if !s.gameRunning then s
      else Hardened(Collided(Pruned(Fired(Moving(s), now), trig), trig))
    }

    // ---------------------------------------------------------------
    // What the tick promises
    // ---------------------------------------------------------------

    /**
     * `createFireballs`: nothing happens before the cooldown has elapsed;
     * after it exactly three fireballs are appended (speed 3, radius 8,
     * age 0, from the alien), the timer restarts and the volley is open;
     * the score is never touched.
     */
    lemma FireRule(s: State, now: int)
      ensures var r := Fired(s, now);
        && (now - s.lastFireballTime <= s.fireballCooldown ==> r == s)
        && (now - s.lastFireballTime > s.fireballCooldown ==>
              && r.fireballs == s.fireballs + Volley(s.alien.pos, s.alien.rotation, FireballSpeed, FireballRadius)
              && |r.fireballs| == |s.fireballs| + 3
              && (forall f :: f in r.fireballs[|s.fireballs|..] ==>
                    f.pos == s.alien.pos && f.speed == 3.0 && f.radius == 8.0 && f.life == 0)
              && r.lastFireballTime == now && !r.waveSurvived && r.volleys == s.volleys + 1)
        && r == s.(fireballs := r.fireballs, lastFireballTime := r.lastFireballTime,
                   waveSurvived := r.waveSurvived, volleys := r.volleys)
    {
      if now - s.lastFireballTime > s.fireballCooldown {
        var r := Fired(s, now);
        assert r.fireballs[|s.fireballs|..] == Volley(s.alien.pos, s.alien.rotation, FireballSpeed, FireballRadius);
      }
    }

    /**
     * `updateFireballs`: the list never grows, every survivor is some
     * fireball moved one tick and aged by one, and no survivor is older
     * than 300 ticks; nothing but the list changes.
     */
    lemma PruneRule(s: State, trig: Trig)
      requires Young(s.fireballs)
      ensures var r := Pruned(s, trig);
        && |r.fireballs| <= |s.fireballs|
        && (forall g :: g in r.fireballs ==> exists i :: 0 <= i < |s.fireballs| && g == Moved(s.fireballs[i], trig))
        && Young(r.fireballs)
        && r == s.(fireballs := r.fireballs)
    {
      var r := Pruned(s, trig);
      AdvanceSurvivors(s.fireballs, trig, FixedMarginOrOld, arena);
      forall g | g in r.fireballs
        ensures 0 <= g.life <= 300
      {
        var i :| 0 <= i < |s.fireballs| && g == Moved(s.fireballs[i], trig);
        assert s.fireballs[i] in s.fireballs;
      }
    }

    /**
     * `checkCollisions`: a hit ends the game and leaves the score alone;
     * without a hit the game goes on, and the score rises by one exactly
     * when the sky is empty and the volley has not been scored yet. The
     * fireballs and the hero are never touched.
     */
    lemma CollisionRule(s: State, trig: Trig)
      ensures var r := Collided(s, trig);
        && (HeroHit(s, trig) ==> r == s.(gameRunning := false))
        && (!HeroHit(s, trig) ==>
              && r.gameRunning == s.gameRunning
              && r.score == s.score + (if s.fireballs == [] && !s.waveSurvived then 1 else 0)
              && r.waveSurvived == (s.waveSurvived || s.fireballs == []))
        && r.fireballs == s.fireballs && r.hero == s.hero && r.volleys == s.volleys
    {
    }

    /** A tick keeps the invariant, so in particular a volley is never scored twice. */
    lemma TickKeepsSound(s: State, now: int, trig: Trig)
      requires Sound(s)
      ensures Sound(Tick(s, now, trig))
    {
      if s.gameRunning {
        var moved := Moving(s);
        assert Sound(moved);
        var f := Fired(moved, now);
        FireRule(moved, now);
        assert Young(f.fireballs);
        var m := Pruned(f, trig);
        PruneRule(f, trig);
        assert Sound(m);
        CollisionRule(m, trig);
      }
    }

    /**
     * A tick of a running game turns the alien, moves the hero, fires when
     * the cooldown has elapsed and moves the fireballs; a game that is
     * over does not change at all.
     */
    lemma TickMotion(s: State, now: int, trig: Trig)
      requires Sound(s)
      ensures var r := Tick(s, now, trig);
        && (!s.gameRunning ==> r == s)
        && (s.gameRunning ==>
              var fired := now - s.lastFireballTime > s.fireballCooldown;
              && r.alien == Spun(s.alien) && r.hero == Stepped(s.hero)
              && r.lastFireballTime == (if fired then now else s.lastFireballTime)
              && r.fireballs == Advance(s.fireballs + (if fired then Volley(r.alien.pos, r.alien.rotation, FireballSpeed, FireballRadius) else []),
                                        trig, FixedMarginOrOld, arena)
              && |r.fireballs| <= |s.fireballs| + 3)
    {
      if s.gameRunning {
        var moved := Moving(s);
        var fired := now - s.lastFireballTime > s.fireballCooldown;
        FireRule(moved, now);
        assert Fired(moved, now).fireballs
            == s.fireballs + (if fired then Volley(moved.alien.pos, moved.alien.rotation, FireballSpeed, FireballRadius) else []);
        CollisionRule(Pruned(Fired(moved, now), trig), trig);
      }
    }

    /**
     * Scoring and game over across a tick, judged on the final positions:
     * a running game ends exactly when the hero is hit, and then scores
     * nothing; otherwise it scores one point exactly when the sky is empty
     * after the move and the volley (a fresh one, or the open one) has not
     * been scored yet.
     */
    lemma TickScore(s: State, now: int, trig: Trig)
      requires Sound(s) && s.gameRunning
      ensures var r := Tick(s, now, trig);
        var fired := now - s.lastFireballTime > s.fireballCooldown;
        && (r.gameRunning <==> !HeroHit(r, trig))
        && (HeroHit(r, trig) ==> r.score == s.score)
        && (!HeroHit(r, trig) ==>
              r.score == s.score + (if r.fireballs == [] && (fired || !s.waveSurvived) then 1 else 0))
    {
      var moved := Moving(s);
      FireRule(moved, now);
      var m := Pruned(Fired(moved, now), trig);
      CollisionRule(m, trig);
      assert HeroHit(Tick(s, now, trig), trig) == HeroHit(m, trig);
    }

    /**
     * The difficulty rule over a tick: the cooldown never rises, never
     * passes 1000 ms, and drops only when the score after the tick is a
     * positive multiple of 5.
     */
    lemma TickCooldown(s: State, now: int, trig: Trig)
      requires Sound(s)
      ensures var r := Tick(s, now, trig);
        && CooldownFloor <= r.fireballCooldown <= s.fireballCooldown
        && (r.fireballCooldown < s.fireballCooldown ==> r.score > 0 && r.score % 5 == 0)
        // the rule runs on every running tick, judged on the score after it
        && (s.gameRunning ==> r.fireballCooldown == Harden(s.fireballCooldown, r.score))
    {
      if s.gameRunning {
        var moved := Moving(s);
        FireRule(moved, now);
        CollisionRule(Pruned(Fired(moved, now), trig), trig);
      }
    }

    // ---------------------------------------------------------------
    // Handlers and the tick, as methods on the game
    // ---------------------------------------------------------------

    /** A click or a touch: the hero turns round while the game runs. */
    method OnPointer()
      requires Valid()
      modifies this`hero
      ensures Valid()
      ensures Snapshot() == if gameRunning then old(Snapshot()).(hero := Turned(old(hero))) else old(Snapshot())
    {
      if gameRunning {
        hero := hero.(direction := -hero.direction);
      }
    }

    /** A key press: Space and Enter turn the hero round while the game runs; other keys do nothing. */
    method OnKeyDown(code: string)
      requires Valid()
      modifies this`hero
      ensures Valid()
      ensures Snapshot() == if (code == "Space" || code == "Enter") && gameRunning
                            then old(Snapshot()).(hero := Turned(old(hero))) else old(Snapshot())
    {
      if code == "Space" || code == "Enter" {
        if gameRunning {
          hero := hero.(direction := -hero.direction);
        }
      }
    }

    /** Fires the next volley once the cooldown has elapsed, as `Fired` says. */
    method CreateFireballs(now: int)
      requires Valid()
      modifies this`fireballs, this`lastFireballTime, this`waveSurvived, this`volleys
      ensures Valid()
      ensures Snapshot() == Fired(old(Snapshot()), now)
    {
      if now - lastFireballTime > fireballCooldown {
        PushVolley();
        lastFireballTime := now;
        waveSurvived := false;
        volleys := volleys + 1;
      }
    }

    /** The push loop of `createFireballs`: three fireballs a third of a turn apart. */
    method PushVolley()
      modifies this`fireballs
      ensures fireballs == old(fireballs) + Volley(alien.pos, alien.rotation, FireballSpeed, FireballRadius)
    {
      ghost var volley := Volley(alien.pos, alien.rotation, FireballSpeed, FireballRadius);
      for i := 0 to 3
        invariant fireballs == old(fireballs) + volley[..i]
      {
        var angle := (TwoPi / 3.0) * (i as real) + alien.rotation;
        fireballs := fireballs + [Fireball(alien.pos, angle, FireballSpeed, FireballRadius, 0)];
      }
      assert volley[..3] == volley;
    }

    /**
     * Move every fireball one tick, walking the list backwards and splicing
     * out each one that is 50 units off screen or older than 300 ticks.
     */
    method UpdateFireballs(trig: Trig)
      modifies this`fireballs
      ensures Snapshot() == Pruned(old(Snapshot()), trig)
    {
      var i := |fireballs|;
      while i > 0
        invariant 0 <= i <= |old(fireballs)|
        invariant fireballs == old(fireballs)[..i] + Advance(old(fireballs)[i..], trig, FixedMarginOrOld, arena)
      {
        i := i - 1;
        var f := fireballs[i];
        var u := trig(f.angle);
        var fireball := f.(pos := Vec(f.pos.x + u.x * f.speed, f.pos.y + u.y * f.speed), life := f.life + 1);
        assert f == old(fireballs)[i];
        MovedBy(f, trig, u);
        AdvanceFrom(old(fireballs), i, trig, FixedMarginOrOld, arena);
        Spliced(old(fireballs), i, Advance(old(fireballs)[i + 1..], trig, FixedMarginOrOld, arena), [fireball]);
        if Outside(arena, fireball.pos, 50.0) || fireball.life > 300 {
          fireballs := fireballs[..i] + fireballs[i + 1..];
        } else {
          fireballs := fireballs[..i] + [fireball] + fireballs[i + 1..];
        }
      }
      assert old(fireballs)[0..] == old(fireballs);
    }

    /** Move the hero one step along the orbit and fold the angle back into [0, 2π]. */
    method UpdateHero()
      requires Valid()
      modifies this`hero
      ensures Valid()
      ensures Snapshot() == old(Snapshot()).(hero := Stepped(old(hero)))
    {
      hero := hero.(angle := hero.angle + hero.speed * (hero.direction as real));
      if hero.angle > TwoPi {
        hero := hero.(angle := hero.angle - TwoPi);
      } else if hero.angle < 0.0 {
        hero := hero.(angle := hero.angle + TwoPi);
      }
    }

    /** Turn the alien by its spin, folding back from above 2π. */
    method UpdateAlien()
      requires Valid()
      modifies this`alien
      ensures Valid()
      ensures Snapshot() == old(Snapshot()).(alien := Spun(old(alien)))
    {
      alien := alien.(rotation := alien.rotation + alien.rotationSpeed);
      if alien.rotation > TwoPi {
        alien := alien.(rotation := alien.rotation - TwoPi);
      }
    }

    /**
     * The backward scan for a fireball touching the hero ends the game at
     * once; without a hit an empty sky earns the volley its point.
     */
    method CheckCollisions(trig: Trig)
      requires Valid()
      modifies this`gameRunning, this`score, this`waveSurvived
      ensures Valid()
      ensures Snapshot() == Collided(old(Snapshot()), trig)
    {
      var hit, _ := FindHit(OrbitPoint(center, circleRadius, hero.angle, trig), hero.radius, fireballs);
      if hit {
        GameOver();
        return;
      }
      if |fireballs| == 0 && !waveSurvived {
        score := score + 1;
        waveSurvived := true;
      }
    }

    /**
     * One tick: turn the alien, move the hero, maybe fire, move the
     * fireballs, resolve collisions and scoring, then apply the difficulty
     * rule. Nothing happens once the game is over.
     */
    method Update(now: int, trig: Trig)
      requires Valid()
      modifies this
      ensures Valid()
      ensures Snapshot() == Tick(old(Snapshot()), now, trig)
    {
      if !gameRunning {
        return;
      }
      UpdateAlien();
      UpdateHero();
      CreateFireballs(now);
      PruneRule(Snapshot(), trig);
      UpdateFireballs(trig);
      CheckCollisions(trig);
      IncreaseDifficulty();
    }

    /** The difficulty rule at the end of `update`. */
    method IncreaseDifficulty()
      requires Valid()
      modifies this`fireballCooldown
      ensures Valid()
      ensures Snapshot() == Hardened(old(Snapshot()))
    {
      if score > 0 && score % 5 == 0 {
        fireballCooldown := if fireballCooldown - 100 > CooldownFloor then fireballCooldown - 100 else CooldownFloor;
      }
    }

    /** The game-over state change; the final-score display is left out. */
    method GameOver()
      requires Valid()
      modifies this`gameRunning
      ensures Valid()
      ensures Snapshot() == old(Snapshot()).(gameRunning := false)
    {
      gameRunning := false;
    }
  }
}

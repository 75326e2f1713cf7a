/**
 * The current version of the game: two players share the orbit, one
 * steered from the lower half of the screen and one from the upper half.
 * Every living player earns the point for a survived volley, the high
 * score follows the best player, and a hit on either player ends the game
 * (or, in cheat mode, raises the hit indicator).
 *
 * As in the second version, each state-changing method is specified by a
 * function on `State`, and the lemmas state what those functions promise.
 */
module TwoPlayerGame {
  import opened Geometry
  import opened Entities
  import opened Rules
  import opened Config

  /** A player: `id` 1 or 2, its place and heading on the orbit, its own score. */
  datatype Player = Player(id: int, angle: real, radius: real, speed: real, direction: int, score: int, alive: bool)

  /** The mutable fields of a game, as one value. */
  datatype State = State(
    highScore: int,
    gameRunning: bool,
    gamePaused: bool,
    cheatMode: bool,
    showHitIndicator: bool,
    hitIndicatorTime: int,
    lastFireballTime: int,
    fireballCooldown: int,
    waveSurvived: bool,
    alien: Alien,
    players: seq<Player>,
    fireballs: seq<Fireball>)

  /** A player turning round. */
  function Flipped(p: Player): Player
  {
    p.(direction := -p.direction)
  }

  /** One tick of `updatePlayers` for one player: a living player steps along the orbit. */
  function Walked(p: Player): (r: Player)
    ensures r == p.(angle := r.angle)
    ensures !p.alive ==> r == p
    // a living player's angle is angle + speed * direction, folded back into the turn at most once
    ensures p.alive ==> r.angle - (p.angle + p.speed * (p.direction as real)) in {-TwoPi, 0.0, TwoPi}
    ensures p.alive && 0.0 <= p.angle + p.speed * (p.direction as real) <= TwoPi
            ==> r.angle == p.angle + p.speed * (p.direction as real)
  {
    if p.alive then p.(angle := StepAngle(p.angle, p.speed * (p.direction as real))) else p
  }

  /** A step of at most a full turn keeps an angle of [0, 2π] in [0, 2π]. */
  lemma WalkedStaysInRange(p: Player)
    requires 0.0 <= p.angle <= TwoPi && -TwoPi <= p.speed <= TwoPi && (p.direction == 1 || p.direction == -1)
    ensures 0.0 <= Walked(p).angle <= TwoPi
  {
    if p.alive {
      assert -TwoPi <= p.speed * (p.direction as real) <= TwoPi;
    }
  }

  /** Every player after `updatePlayers`. */
  function WalkedAll(ps: seq<Player>): (r: seq<Player>)
    ensures |r| == |ps| && forall i :: 0 <= i < |ps| ==> r[i] == Walked(ps[i])
  {
    seq(|ps|, i requires 0 <= i < |ps| => Walked(ps[i]))
  }

  /** One player after the point for a survived volley: only the living score. */
  function Rewarded(p: Player): Player
  {
    if p.alive then p.(score := p.score + 1) else p
  }

  /** Every player after the point for a survived volley. */
  function RewardedAll(ps: seq<Player>): (r: seq<Player>)
    ensures |r| == |ps|
    // a living player gains exactly one point, a dead one none, and nothing else changes
    ensures forall i :: 0 <= i < |ps| ==>
              r[i] == ps[i].(score := ps[i].score + (if ps[i].alive then 1 else 0))
  {
    seq(|ps|, i requires 0 <= i < |ps| => Rewarded(ps[i]))
  }

  /** `Math.max(...players.map(p => p.score))`: the best score among the players. */
  function BestScore(ps: seq<Player>): (m: int)
    requires |ps| > 0
    ensures forall i :: 0 <= i < |ps| ==> ps[i].score <= m
    ensures exists i :: 0 <= i < |ps| && ps[i].score == m
  {
    if |ps| == 1 then ps[0].score
    else
      var rest := BestScore(ps[1..]);
      assert forall i :: 1 <= i < |ps| ==> ps[i] == ps[1..][i - 1];
      if ps[0].score > rest then ps[0].score else rest
  }

  /**
   * `handlePlayerInput`: a press at height `y` on a screen `h` high turns
   * the player of that half round, if it is alive; the upper half, up to
   * and including the middle, belongs to the second player.
   */
  function Tapped(ps: seq<Player>, y: real, h: real): seq<Player>
    requires |ps| == 2
  {
    if y <= h / 2.0 then
      (if ps[1].alive then ps[1 := Flipped(ps[1])] else ps)
    else
      (if ps[0].alive then ps[0 := Flipped(ps[0])] else ps)
  }

  /** Input routing: exactly the player of the pressed half may turn, and only when alive. */
  lemma TapRule(ps: seq<Player>, y: real, h: real)
    requires |ps| == 2
    ensures var r := Tapped(ps, y, h);
      && |r| == 2
      && (y <= h / 2.0 ==> r[0] == ps[0] && r[1] == (if ps[1].alive then Flipped(ps[1]) else ps[1]))
      && (y > h / 2.0 ==> r[1] == ps[1] && r[0] == (if ps[0].alive then Flipped(ps[0]) else ps[0]))
  {
  }

  /** A sequence of presses, handled in order, as a multi-touch start is. */
  function Taps(ps: seq<Player>, ys: seq<real>, h: real): (r: seq<Player>)
    requires |ps| == 2
    ensures |r| == 2
    decreases |ys|
  {
    if ys == [] then ps else Taps(Tapped(ps, ys[0], h), ys[1..], h)
  }

  /** Player `k` is the one a press at `y` steers: player 0 below the middle, player 1 above. */
  predicate Steers(k: int, y: real, h: real)
  {
    if y <= h / 2.0 then k == 1 else k == 0
  }

  /** How many of the presses `ys` steer player `k`. */
  function PressesFor(k: int, ys: seq<real>, h: real): nat
    decreases |ys|
  {
    if ys == [] then 0 else (if Steers(k, ys[0], h) then 1 else 0) + PressesFor(k, ys[1..], h)
  }

  /**
   * After any sequence of presses a living player faces the other way
   * exactly when an odd number of them were on its half; a dead player,
   * and everything but the direction, is untouched.
   */
  lemma {:induction false} TapsFlipByParity(ps: seq<Player>, ys: seq<real>, h: real, k: int)
    requires |ps| == 2 && 0 <= k < 2
    ensures Taps(ps, ys, h)[k] == if ps[k].alive && PressesFor(k, ys, h) % 2 == 1 then Flipped(ps[k]) else ps[k]
    decreases |ys|
  {
    if ys != [] {
      var next := Tapped(ps, ys[0], h);
      TapRule(ps, ys[0], h);
      TapsFlipByParity(next, ys[1..], h, k);
      assert next[k] == if ps[k].alive && Steers(k, ys[0], h) then Flipped(ps[k]) else ps[k];
      assert Flipped(Flipped(ps[k])) == ps[k];
    }
  }

  class Game {
    const config: Settings
    const arena: Arena
    const center: Vec
    /** Radius of the players' orbit: 85% of the shorter side, halved. */
    const circleRadius: real

    var highScore: int
    var gameRunning: bool
    var gamePaused: bool
    var cheatMode: bool
    var showHitIndicator: bool
    var hitIndicatorTime: int
    var lastFireballTime: int
    var fireballCooldown: int
    /**
     * Set when a point is awarded and cleared by the volley fired right
     * after it, so between calls it is always false.
     */
    var waveSurvived: bool
    var alien: Alien
    var players: seq<Player>
    var fireballs: seq<Fireball>

    ghost function Snapshot(): State
      reads this
    {
      State(highScore, gameRunning, gamePaused, cheatMode, showHitIndicator, hitIndicatorTime,
            lastFireballTime, fireballCooldown, waveSurvived, alien, players, fireballs)
    }

    /** A player as the configuration made it, with its direction 1 or -1 and no negative score. */
    ghost predicate WellFormed(p: Player)
      requires Complete(config)
    {
      && (p.direction == 1 || p.direction == -1)
      && p.speed == config.hero["speed"] && p.radius == 8.0
      && 0 <= p.score
    }

    /**
     * The invariant every handler and every tick keeps. The cooldown stays
     * at 2000 ms: the difficulty rule of `update` reads a `score` field this
     * version never sets, so it never fires.
     */
    ghost predicate Sound(s: State)
    {
      && Complete(config)
      && !s.waveSurvived
      && |s.players| == 2
      && s.players[0].id == 1 && s.players[1].id == 2
      && WellFormed(s.players[0]) && WellFormed(s.players[1])
      && s.alien.pos == center && s.alien.rotationSpeed == config.alien["rotationSpeed"]
      && s.fireballCooldown == InitialCooldown
    }

    ghost predicate Valid()
      reads this
    {
      Sound(Snapshot())
    }

    /** Fireball speed from the configuration. */
    function FireballSpeed(): real
      requires Complete(config)
    {
      config.fireball["speed"]
    }

    /** Fireball radius: half the configured diameter. */
    function FireballRadius(): real
      requires Complete(config)
    {
      config.fireball["size"] / 2.0
    }

    /** Where player `p` stands on the orbit. */
    function PlayerAt(p: Player, trig: Trig): Vec
    {
      OrbitPoint(center, circleRadius, p.angle, trig)
    }

    /**
     * A new game on a `width` by `height` screen. `saved` is the parsed
     * saved configuration, `storedHighScore` the stored high score, and
     * `firstVolleyAt` the randomised start time the source computes from
     * the clock.
     */
    constructor (width: real, height: real, saved: Option<Saved>, storedHighScore: int, firstVolleyAt: int)
      ensures Valid()
      ensures config == Merge(saved)
      ensures arena == Arena(width, height) && center == Vec(width / 2.0, height / 2.0)
      ensures circleRadius == (if width < height then width else height) * 0.85 / 2.0
      ensures Snapshot() == State(storedHighScore, true, false, false, false, 0, firstVolleyAt, InitialCooldown, false,
                                  Alien(center, config.alien["size"] / 2.0, 0.0, config.alien["rotationSpeed"]),
                                  [Player(1, 0.0, 8.0, config.hero["speed"], 1, 0, true),
                                   Player(2, Pi, 8.0, config.hero["speed"], 1, 0, true)],
                                  [])
    {
      var merged := Merge(saved);
      config := merged;
      arena := Arena(width, height);
      center := Vec(width / 2.0, height / 2.0);
      circleRadius := (if width < height then width else height) * 0.85 / 2.0;
      highScore := storedHighScore;
      gameRunning := true;
      gamePaused := false;
      cheatMode := false;
      showHitIndicator := false;
      hitIndicatorTime := 0;
      lastFireballTime := firstVolleyAt;
      fireballCooldown := InitialCooldown;
      waveSurvived := false;
      alien := Alien(Vec(width / 2.0, height / 2.0), merged.alien["size"] / 2.0, 0.0, merged.alien["rotationSpeed"]);
      players := [Player(1, 0.0, 8.0, merged.hero["speed"], 1, 0, true),
                  Player(2, Pi, 8.0, merged.hero["speed"], 1, 0, true)];
      fireballs := [];
    }

    // ---------------------------------------------------------------
    // The tick, as functions on states
    // ---------------------------------------------------------------

    /**
     * `createFireballs`: once more than the cooldown has passed since the
     * last volley, every living player earns the point for the previous
     * volley (unless in cheat mode or `lastFireballTime` is not positive), the
     * high score rises to the best player's score if that beats it, and a
     * volley is fired.
     */
    function Fired(s: State, now: int): State
      requires Complete(config) && |s.players| > 0
    {
      if now - s.lastFireballTime > s.fireballCooldown then Launched(Awarded(s), now) else s
    }

    /** The point for the previous volley, and the high score that follows it. */
    function Awarded(s: State): (r: State)
      requires |s.players| > 0
      ensures |r.players| == |s.players|
    {
      if s.lastFireballTime > 0 && !s.waveSurvived && !s.cheatMode then
        var ps := RewardedAll(s.players);
        var best := BestScore(ps);
        s.(players := ps, waveSurvived := true, highScore := if best > s.highScore then best else s.highScore)
      else s
    }

    /** The volley itself: three fireballs from the alien, the timer restarted, a new wave open. */
    function Launched(s: State, now: int): State
      requires Complete(config)
    {
      s.(fireballs := s.fireballs + Volley(s.alien.pos, s.alien.rotation, FireballSpeed(), FireballRadius()),
         lastFireballTime := now,
         waveSurvived := false)
    }

    /** `updateFireballs`: every fireball moves, and those past their margin are dropped. */
    function Pruned(s: State, trig: Trig): State
    {
      s.(fireballs := Advance(s.fireballs, trig, SizedMargin, arena))
    }

    /** Player `i` of `ps` is alive and one of the fireballs `fs` touches it. */
    predicate PlayerHit(ps: seq<Player>, fs: seq<Fireball>, i: int, trig: Trig)
      requires 0 <= i < |ps|
    {
      ps[i].alive && AnyHit(PlayerAt(ps[i], trig), ps[i].radius, fs)
    }

    /** One of the first `k` players is hit. */
    predicate HitAmong(ps: seq<Player>, fs: seq<Fireball>, k: int, trig: Trig)
      requires 0 <= k <= |ps|
    {
      exists i :: 0 <= i < k && PlayerHit(ps, fs, i, trig)
    }

    /**
     * `checkCollisions` after its scan has reached player `k`: if one of
     * the first `k` players is hit, cheat mode raises the indicator
     * stamped `now`, otherwise the game is over.
     */
    function CollidedAmong(s: State, k: int, now: int, trig: Trig): State
      requires 0 <= k <= |s.players|
    {
      if HitAmong(s.players, s.fireballs, k, trig) then
        if s.cheatMode then s.(showHitIndicator := true, hitIndicatorTime := now)
        else s.(gameRunning := false)
      else s
    }

    /** `checkCollisions`, all players scanned. */
    function Collided(s: State, now: int, trig: Trig): State
    {
      CollidedAmong(s, |s.players|, now, trig)
    }

    /** The indicator goes down once it has been up for more than 500 ms. */
    function Expired(s: State, now: int): State
    {
      if s.showHitIndicator && now - s.hitIndicatorTime > HitIndicatorMillis then s.(showHitIndicator := false)
      else s
    }

    /** The first two steps of a tick: the alien turns and every living player steps. */
    function Moving(s: State): (r: State)
      ensures |r.players| == |s.players|
    {
      s.(alien := Spun(s.alien), players := WalkedAll(s.players))
    }

    /** One call of `update` with the clock at `now`. */
    function Tick(s: State, now: int, trig: Trig): State
      requires Complete(config) && |s.players| > 0
    {
      if !s.gameRunning || s.gamePaused then s
      else Expired(Collided(Pruned(Fired(Moving(s), now), trig), now, trig), now)
    }

    // ---------------------------------------------------------------
    // What the tick promises
    // ---------------------------------------------------------------

    /**
     * `createFireballs`: nothing happens before the cooldown has elapsed;
     * after it exactly one volley is appended and the timer restarts. On a
     * scoring volley every living player gains one point and the high
     * score becomes the larger of itself and the best player's score;
     * otherwise no score changes.
     */
    lemma FireRule(s: State, now: int)
      requires Complete(config) && |s.players| > 0
      ensures var r := Fired(s, now);
        && (now - s.lastFireballTime <= s.fireballCooldown ==> r == s)
        && (now - s.lastFireballTime > s.fireballCooldown ==>
              && r.fireballs == s.fireballs + Volley(s.alien.pos, s.alien.rotation, FireballSpeed(), FireballRadius())
              && |r.fireballs| == |s.fireballs| + 3
              && r.lastFireballTime == now && !r.waveSurvived)
        && (now - s.lastFireballTime > s.fireballCooldown && s.lastFireballTime > 0 && !s.waveSurvived && !s.cheatMode ==>
              && r.players == RewardedAll(s.players)
              && r.highScore == (if BestScore(r.players) > s.highScore then BestScore(r.players) else s.highScore))
        && (!(now - s.lastFireballTime > s.fireballCooldown && s.lastFireballTime > 0 && !s.waveSurvived && !s.cheatMode) ==>
              r.players == s.players && r.highScore == s.highScore)
        && r.highScore >= s.highScore
        // the alien, the flags and the cooldown are left alone
        && r == s.(players := r.players, highScore := r.highScore, fireballs := r.fireballs,
                   lastFireballTime := r.lastFireballTime, waveSurvived := r.waveSurvived)
    {
    }

    /** Firing keeps the invariant: rewarded players stay well formed and the wave flag is cleared. */
    lemma FiredKeepsSound(s: State, now: int)
      requires Sound(s)
      ensures Sound(Fired(s, now))
    {
      var a := Awarded(s);
      if s.lastFireballTime > 0 && !s.waveSurvived && !s.cheatMode {
        assert a.players[0] == Rewarded(s.players[0]) && a.players[1] == Rewarded(s.players[1]);
      }
    }

    /** The scan finds a hit among `k + 1` players exactly when it did among `k` or player `k` is hit. */
    lemma HitAmongNext(ps: seq<Player>, fs: seq<Fireball>, k: int, trig: Trig)
      requires 0 <= k < |ps|
      ensures HitAmong(ps, fs, k + 1, trig) <==> HitAmong(ps, fs, k, trig) || PlayerHit(ps, fs, k, trig)
    {
      if HitAmong(ps, fs, k + 1, trig) && !PlayerHit(ps, fs, k, trig) {
        var i :| 0 <= i < k + 1 && PlayerHit(ps, fs, i, trig);
        assert i < k;
      }
    }

    /**
     * `checkCollisions`: with no living player hit nothing changes; a hit
     * in cheat mode raises the indicator stamped `now`, any other hit ends
     * the game; the players and the fireballs are never touched.
     */
    lemma CollisionRule(s: State, now: int, trig: Trig)
      ensures var r := Collided(s, now, trig);
        var hit := exists i :: 0 <= i < |s.players| && PlayerHit(s.players, s.fireballs, i, trig);
        && (!hit ==> r == s)
        && (hit && s.cheatMode ==> r == s.(showHitIndicator := true, hitIndicatorTime := now))
        && (hit && !s.cheatMode ==> r == s.(gameRunning := false))
        && r.players == s.players && r.fireballs == s.fireballs
    {
    }

    /** The last two steps of a tick touch only the running flag and the hit indicator. */
    lemma Settled(m: State, now: int, trig: Trig)
      ensures var t := Expired(Collided(m, now, trig), now);
        t == m.(gameRunning := t.gameRunning, showHitIndicator := t.showHitIndicator, hitIndicatorTime := t.hitIndicatorTime)
    {
      CollisionRule(m, now, trig);
    }

    /** A running tick is the firing step followed by fireball motion and the collision flags. */
    lemma TickShape(s: State, now: int, trig: Trig)
      requires Complete(config) && |s.players| > 0 && s.gameRunning && !s.gamePaused
      ensures var f := Fired(Moving(s), now);
        var r := Tick(s, now, trig);
        r == f.(fireballs := Advance(f.fireballs, trig, SizedMargin, arena), gameRunning := r.gameRunning,
                showHitIndicator := r.showHitIndicator, hitIndicatorTime := r.hitIndicatorTime)
    {
      Settled(Pruned(Fired(Moving(s), now), trig), now, trig);
    }

    /** A tick keeps the invariant; in particular the cooldown never leaves 2000 ms. */
    lemma TickKeepsSound(s: State, now: int, trig: Trig)
      requires Sound(s)
      ensures Sound(Tick(s, now, trig))
    {
      if s.gameRunning && !s.gamePaused {
        var moved := Moving(s);
        assert moved.players[0] == Walked(s.players[0]) && moved.players[1] == Walked(s.players[1]);
        assert Sound(moved);
        FiredKeepsSound(moved, now);
        TickShape(s, now, trig);
      }
    }

    /**
     * A tick of a running game turns the alien, moves every living player,
     * fires when the cooldown has elapsed and moves the fireballs; a
     * stopped or paused game does not change at all.
     */
    lemma TickMotion(s: State, now: int, trig: Trig)
      requires Sound(s)
      ensures var r := Tick(s, now, trig);
        && (!s.gameRunning || s.gamePaused ==> r == s)
        && (s.gameRunning && !s.gamePaused ==>
              var fired := now - s.lastFireballTime > s.fireballCooldown;
              && r.alien == Spun(s.alien)
              && |r.players| == 2
              && (forall i :: 0 <= i < 2 ==> r.players[i].angle == Walked(s.players[i]).angle)
              && r.lastFireballTime == (if fired then now else s.lastFireballTime)
              && r.fireballs == Advance(s.fireballs + (if fired then Volley(r.alien.pos, r.alien.rotation, FireballSpeed(), FireballRadius()) else []),
                                        trig, SizedMargin, arena)
              && |r.fireballs| <= |s.fireballs| + 3
              && r.cheatMode == s.cheatMode && !r.gamePaused
              && r.fireballCooldown == InitialCooldown)
    {
      if s.gameRunning && !s.gamePaused {
        var moved := Moving(s);
        var f := Fired(moved, now);
        FireRule(moved, now);
        var m := Pruned(f, trig);
        Settled(m, now, trig);
        assert Tick(s, now, trig) == Expired(Collided(m, now, trig), now);
        assert f.fireballs
            == s.fireballs + (if now - s.lastFireballTime > s.fireballCooldown then Volley(moved.alien.pos, moved.alien.rotation, FireballSpeed(), FireballRadius()) else []);
        forall i | 0 <= i < 2
          ensures f.players[i].angle == Walked(s.players[i]).angle
        {
          assert moved.players[i] == Walked(s.players[i]);
        }
      }
    }

    /**
     * Scoring over a tick: when a running game fires outside cheat mode
     * with a positive `lastFireballTime`, every living player gains exactly one
     * point and nobody else does; otherwise no score changes. The high
     * score never drops.
     */
    lemma TickScore(s: State, now: int, trig: Trig)
      requires Sound(s)
      ensures var r := Tick(s, now, trig);
        var scored := s.gameRunning && !s.gamePaused && now - s.lastFireballTime > s.fireballCooldown
                      && s.lastFireballTime > 0 && !s.cheatMode;
        && |r.players| == 2
        && (forall i :: 0 <= i < 2 ==>
              r.players[i].score == s.players[i].score + (if scored && s.players[i].alive then 1 else 0))
        && r.highScore >= s.highScore
        && (scored ==> r.highScore >= r.players[0].score && r.highScore >= r.players[1].score)
    {
      if s.gameRunning && !s.gamePaused {
        var moved := Moving(s);
        FireRule(moved, now);
        TickShape(s, now, trig);
        forall i | 0 <= i < 2
          ensures Tick(s, now, trig).players[i].score
                  == s.players[i].score + (if now - s.lastFireballTime > s.fireballCooldown && s.lastFireballTime > 0
                                               && !s.cheatMode && s.players[i].alive then 1 else 0)
        {
          assert moved.players[i] == Walked(s.players[i]);
        }
      }
    }

    /**
     * The guard `lastFireballTime > 0` never holds back the first volley,
     * because the start time is a positive clock reading: in a fresh game
     * with no fireball fired yet, every living player still earns a point
     * when the first volley leaves.
     */
    lemma FirstVolleyScores(s: State, now: int, trig: Trig)
      requires Sound(s) && s.gameRunning && !s.gamePaused && !s.cheatMode
      requires s.fireballs == [] && 0 < s.lastFireballTime
      requires now - s.lastFireballTime > s.fireballCooldown
      ensures forall i :: 0 <= i < 2 && s.players[i].alive ==>
                Tick(s, now, trig).players[i].score == s.players[i].score + 1
    {
      TickScore(s, now, trig);
    }

    /**
     * Collisions over a tick, judged on the final positions: outside cheat
     * mode a hit on a living player ends the game and nothing else does;
     * in cheat mode the game goes on and a hit leaves the indicator up,
     * stamped `now`; an indicator still up at the end of a tick is at most
     * 500 ms old.
     */
    lemma TickCollision(s: State, now: int, trig: Trig)
      requires Sound(s) && s.gameRunning && !s.gamePaused
      ensures var r := Tick(s, now, trig);
        var hit := exists i :: 0 <= i < |r.players| && PlayerHit(r.players, r.fireballs, i, trig);
        && (r.gameRunning <==> !(hit && !s.cheatMode))
        && (hit && s.cheatMode ==> r.showHitIndicator && r.hitIndicatorTime == now)
        && (!hit ==> r.hitIndicatorTime == s.hitIndicatorTime)
        && (r.showHitIndicator ==> now - r.hitIndicatorTime <= HitIndicatorMillis)
    {
      var moved := Moving(s);
      var m := Pruned(Fired(moved, now), trig);
      CollisionRule(m, now, trig);
      Settled(m, now, trig);
      var r := Expired(Collided(m, now, trig), now);
      assert Tick(s, now, trig) == r;
      assert r.players == m.players && r.fireballs == m.fireballs;
    }

    /**
     * Angles over a tick: player angles in [0, 2π] stay there when the
     * configured speed is at most a full turn, and so does the alien's
     * rotation when its configured spin is between 0 and a full turn.
     */
    lemma TickAngles(s: State, now: int, trig: Trig)
      requires Sound(s)
      requires forall i :: 0 <= i < 2 ==> 0.0 <= s.players[i].angle <= TwoPi
      requires -TwoPi <= config.hero["speed"] <= TwoPi
      requires 0.0 <= s.alien.rotation <= TwoPi && 0.0 <= config.alien["rotationSpeed"] <= TwoPi
      ensures var r := Tick(s, now, trig);
        && (forall i :: 0 <= i < 2 ==> 0.0 <= r.players[i].angle <= TwoPi)
        && 0.0 <= r.alien.rotation <= TwoPi
    {
      if s.gameRunning && !s.gamePaused {
        var moved := Moving(s);
        FireRule(moved, now);
        TickShape(s, now, trig);
        forall i | 0 <= i < 2
          ensures 0.0 <= Fired(moved, now).players[i].angle <= TwoPi
        {
          assert moved.players[i] == Walked(s.players[i]);
          WalkedStaysInRange(s.players[i]);
        }
      }
    }

    // ---------------------------------------------------------------
    // Handlers and the tick, as methods on the game
    // ---------------------------------------------------------------

    /** `handlePlayerInput`: a press at height `clickY` on a screen `screenHeight` high. */
    method HandlePlayerInput(clickY: real, screenHeight: real)
      requires Valid()
      modifies this`players
      ensures Valid()
      ensures Snapshot() == old(Snapshot()).(players := Tapped(old(players), clickY, screenHeight))
    {
      var midPoint := screenHeight / 2.0;
      if clickY <= midPoint {
        if players[1].alive {
          players := players[1 := Flipped(players[1])];
        }
      } else {
        if players[0].alive {
          players := players[0 := Flipped(players[0])];
        }
      }
    }

    /** A click, handled only while the game runs, paused or not. */
    method OnClick(clickY: real, screenHeight: real)
      requires Valid()
      modifies this`players
      ensures Valid()
      ensures Snapshot() == if gameRunning then old(Snapshot()).(players := Tapped(old(players), clickY, screenHeight))
                            else old(Snapshot())
    {
      if gameRunning {
        HandlePlayerInput(clickY, screenHeight);
      }
    }

    /** A touch start: every touch, in order, while the game runs. */
    method OnTouchStart(touchYs: seq<real>, screenHeight: real)
      requires Valid()
      modifies this`players
      ensures Valid()
      ensures Snapshot() == if gameRunning then old(Snapshot()).(players := Taps(old(players), touchYs, screenHeight))
                            else old(Snapshot())
    {
      if gameRunning {
        for i := 0 to |touchYs|
          invariant Valid()
          invariant Snapshot() == old(Snapshot()).(players := players)
          invariant Taps(players, touchYs[i..], screenHeight) == Taps(old(players), touchYs, screenHeight)
        {
          assert touchYs[i..][0] == touchYs[i] && touchYs[i..][1..] == touchYs[i + 1..];
          HandlePlayerInput(touchYs[i], screenHeight);
        }
        assert touchYs[|touchYs|..] == [];
      }
    }

    /** A key press: P toggles pause, C toggles cheat mode, other keys do nothing. */
    method OnKeyDown(code: string)
      requires Valid()
      modifies this`gamePaused, this`cheatMode
      ensures Valid()
      ensures Snapshot() ==
        if code == "KeyP" && gameRunning then old(Snapshot()).(gamePaused := !old(gamePaused))
        else if code == "KeyC" then old(Snapshot()).(cheatMode := !old(cheatMode))
        else old(Snapshot())
    {
      if code == "KeyP" {
        TogglePause();
      } else if code == "KeyC" {
        ToggleCheatMode();
      }
    }

    /** The `forEach` of `createFireballs` that gives every living player its point. */
    method RewardAlivePlayers()
      modifies this`players
      ensures players == RewardedAll(old(players))
    {
      for i := 0 to |players|
        invariant |players| == |old(players)|
        invariant forall j :: 0 <= j < i ==> players[j] == Rewarded(old(players)[j])
        invariant forall j :: i <= j < |players| ==> players[j] == old(players)[j]
      {
        if players[i].alive {
          players := players[i := players[i].(score := players[i].score + 1)];
        }
      }
    }

    /** The push loop of `createFireballs`: three fireballs a third of a turn apart. */
    method PushVolley()
      requires Complete(config)
      modifies this`fireballs
      ensures fireballs == old(fireballs) + Volley(alien.pos, alien.rotation, FireballSpeed(), FireballRadius())
    {
      ghost var volley := Volley(alien.pos, alien.rotation, FireballSpeed(), FireballRadius());
      for i := 0 to 3
        invariant fireballs == old(fireballs) + volley[..i]
      {
        var angle := (TwoPi / 3.0) * (i as real) + alien.rotation;
        fireballs := fireballs + [Fireball(alien.pos, angle, FireballSpeed(), FireballRadius(), 0)];
      }
      assert volley[..3] == volley;
    }

    /**
     * The scoring block of `createFireballs`: after a survived volley,
     * outside cheat mode and with a positive `lastFireballTime`, every living
     * player scores and the high score follows the best of them.
     */
    method AwardWave()
      requires |players| > 0
      modifies this`players, this`highScore, this`waveSurvived
      ensures Snapshot() == Awarded(old(Snapshot()))
    {
      if lastFireballTime > 0 && !waveSurvived && !cheatMode {
        RewardAlivePlayers();
        waveSurvived := true;
        var maxScore := BestScore(players);
        if maxScore > highScore {
          highScore := maxScore;
        }
      }
    }

    /** Scores the previous volley and fires the next, as `Fired` says. */
    method CreateFireballs(now: int)
      requires Valid()
      modifies this`players, this`highScore, this`waveSurvived, this`fireballs, this`lastFireballTime
      ensures Valid()
      ensures Snapshot() == Fired(old(Snapshot()), now)
    {
      FiredKeepsSound(Snapshot(), now);
      if now - lastFireballTime > fireballCooldown {
        AwardWave();
        PushVolley();
        lastFireballTime := now;
        waveSurvived := false;
      }
    }

    /**
     * Move every fireball one tick, walking the list backwards and splicing
     * out each one that is more than its radius plus 10 units off screen.
     */
    method UpdateFireballs(trig: Trig)
      requires Valid()
      modifies this`fireballs
      ensures Valid()
      ensures Snapshot() == Pruned(old(Snapshot()), trig)
    {
      var i := |fireballs|;
      while i > 0
        invariant 0 <= i <= |old(fireballs)|
        invariant fireballs == old(fireballs)[..i] + Advance(old(fireballs)[i..], trig, SizedMargin, arena)
      {
        i := i - 1;
        var f := fireballs[i];
        var u := trig(f.angle);
        var fireball := f.(pos := Vec(f.pos.x + u.x * f.speed, f.pos.y + u.y * f.speed), life := f.life + 1);
        var margin := fireball.radius + 10.0;
        assert f == old(fireballs)[i];
        MovedBy(f, trig, u);
        AdvanceFrom(old(fireballs), i, trig, SizedMargin, arena);
        Spliced(old(fireballs), i, Advance(old(fireballs)[i + 1..], trig, SizedMargin, arena), [fireball]);
        if fireball.pos.x < -margin || fireball.pos.x > arena.width + margin
           || fireball.pos.y < -margin || fireball.pos.y > arena.height + margin {
          fireballs := fireballs[..i] + fireballs[i + 1..];
        } else {
          fireballs := fireballs[..i] + [fireball] + fireballs[i + 1..];
        }
      }
      assert old(fireballs)[0..] == old(fireballs);
    }

    /** Move every living player one step along the orbit, folding its angle back into [0, 2π]. */
    method UpdatePlayers()
      requires Valid()
      modifies this`players
      ensures Valid()
      ensures Snapshot() == old(Snapshot()).(players := WalkedAll(old(players)))
    {
      for i := 0 to |players|
        invariant |players| == |old(players)|
        invariant forall j :: 0 <= j < i ==> players[j] == Walked(old(players)[j])
        invariant forall j :: i <= j < |players| ==> players[j] == old(players)[j]
      {
        var player := players[i];
        assert player == old(players)[i];
        if player.alive {
          var angle := player.angle + player.speed * (player.direction as real);
          if angle > TwoPi {
            angle := angle - TwoPi;
          } else if angle < 0.0 {
            angle := angle + TwoPi;
          }
          assert player.(angle := angle) == Walked(player);
          players := players[i := player.(angle := angle)];
        }
        assert players[i] == Walked(old(players)[i]);
      }
      assert players == WalkedAll(old(players));
      assert players[0] == Walked(old(players)[0]) && players[1] == Walked(old(players)[1]);
    }

    /** Turn the alien by its spin, folding back from above 2π. */
    method UpdateAlien()
      requires Valid()
      modifies this`alien
      ensures Valid()
      ensures Snapshot() == old(Snapshot()).(alien := Spun(old(alien)))
    {
      alien := alien.(rotation := alien.rotation + alien.rotationSpeed);
      if alien.rotation > TwoPi {
        alien := alien.(rotation := alien.rotation - TwoPi);
      }
    }

    /**
     * The `forEach` of `checkCollisions`: for each living player, the
     * backward scan for a fireball touching it; a hit raises the indicator
     * in cheat mode and ends the game otherwise, and the scan moves on to
     * the next player either way.
     */
    method CheckCollisions(now: int, trig: Trig)
      requires Valid()
      modifies this`gameRunning, this`showHitIndicator, this`hitIndicatorTime
      ensures Valid()
      ensures Snapshot() == Collided(old(Snapshot()), now, trig)
    {
      for i := 0 to |players|
        invariant Valid()
        invariant Snapshot() == CollidedAmong(old(Snapshot()), i, now, trig)
      {
        HitAmongNext(old(players), old(fireballs), i, trig);
        var player := players[i];
        if !player.alive {
          continue;
        }
        var hit, _ := FindHit(PlayerAt(player, trig), player.radius, fireballs);
        if hit {
          if cheatMode {
            showHitIndicator := true;
            hitIndicatorTime := now;
          } else {
            GameOver();
          }
        }
      }
    }

    /**
     * One tick: turn the alien, move the players, maybe score and fire,
     * move the fireballs, resolve collisions and expire the hit indicator.
     * Nothing happens when the game is over or paused. The difficulty rule
     * of this version tests a `score` field that is never set, so it never
     * changes the cooldown and is not modelled as a step.
     */
    method Update(now: int, trig: Trig)
      requires Valid()
      modifies this
      ensures Valid()
      ensures Snapshot() == Tick(old(Snapshot()), now, trig)
    {
      if !gameRunning || gamePaused {
        return;
      }
      UpdateAlien();
      UpdatePlayers();
      CreateFireballs(now);
      UpdateFireballs(trig);
      CheckCollisions(now, trig);
      ExpireHitIndicator(now);
    }

    /** The hit indicator goes down once it has been up for more than 500 ms. */
    method ExpireHitIndicator(now: int)
      requires Valid()
      modifies this`showHitIndicator
      ensures Valid()
      ensures Snapshot() == Expired(old(Snapshot()), now)
    {
      if showHitIndicator {
        if now - hitIndicatorTime > HitIndicatorMillis {
          showHitIndicator := false;
        }
      }
    }

    /** Pause or resume; ignored once the game is over. */
    method TogglePause()
      requires Valid()
      modifies this`gamePaused
      ensures Valid()
      ensures Snapshot() == if gameRunning then old(Snapshot()).(gamePaused := !old(gamePaused)) else old(Snapshot())
    {
      if !gameRunning {
        return;
      }
      gamePaused := !gamePaused;
    }

    /** Cheat mode on or off, at any time. */
    method ToggleCheatMode()
      requires Valid()
      modifies this`cheatMode
      ensures Valid()
      ensures Snapshot() == old(Snapshot()).(cheatMode := !old(cheatMode))
    {
      cheatMode := !cheatMode;
    }

    /** The game-over state change; the final-score display is left out. */
    method GameOver()
      requires Valid()
      modifies this`gameRunning
      ensures Valid()
      ensures Snapshot() == old(Snapshot()).(gameRunning := false)
    {
      gameRunning := false;
    }
  }
}

/**
 * The records every version of the game shares: the alien, the single hero
 * of the earlier versions, and fireballs, with the rules that launch a
 * volley, move and cull fireballs, and find a collision.
 */
module Entities {
  import opened Geometry

  /** The alien at the centre: position `x`/`y`, `radius`, `rotation`, `rotationSpeed`. */
  datatype Alien = Alien(pos: Vec, radius: real, rotation: real, rotationSpeed: real)

  /** The hero of the single-player versions; `direction` is 1 or -1. */
  datatype Hero = Hero(angle: real, radius: real, speed: real, direction: int)

  /**
   * One tick of the hero (or a player) along the orbit: `speed` radians in
   * its `direction`, folded back into the turn.
   */
  function Stepped(h: Hero): (r: Hero)
    ensures r.radius == h.radius && r.speed == h.speed && r.direction == h.direction
    ensures r.angle - (h.angle + h.speed * (h.direction as real)) in {-TwoPi, 0.0, TwoPi}
    // a step of at most a full turn keeps an angle of [0, 2π] in [0, 2π]
    ensures 0.0 <= h.angle <= TwoPi && -TwoPi <= h.speed <= TwoPi && (h.direction == 1 || h.direction == -1)
            ==> 0.0 <= r.angle <= TwoPi
  {
    h.(angle := StepAngle(h.angle, h.speed * (h.direction as real)))
  }

  /** A click, touch or key turning the hero round. */
  function Turned(h: Hero): Hero
  {
    h.(direction := -h.direction)
  }

  /** One tick of the alien's spin. */
  function Spun(a: Alien): (r: Alien)
    ensures r.pos == a.pos && r.radius == a.radius && r.rotationSpeed == a.rotationSpeed
    ensures r.rotation - (a.rotation + a.rotationSpeed) in {-TwoPi, 0.0}
    // a spin of at most a full turn keeps a rotation of [0, 2π] in [0, 2π]
    ensures 0.0 <= a.rotation <= TwoPi && 0.0 <= a.rotationSpeed <= TwoPi ==> 0.0 <= r.rotation <= TwoPi
  {
    a.(rotation := Spin(a.rotation, a.rotationSpeed))
  }

  /** A fireball; `life` counts the ticks it has lived. */
  datatype Fireball = Fireball(pos: Vec, angle: real, speed: real, radius: real, life: int)

  /** The canvas, whose top-left corner is the origin. */
  datatype Arena = Arena(width: real, height: real)

  /** The two culling rules of the successive versions. */
  datatype Culling =
    | FixedMarginOrOld  // 50 units off screen, or older than 300 ticks
    | SizedMargin       // its own radius plus 10 units off screen

  /**
   * One volley: three fireballs at `origin`, travelling at `rotation`,
   * `rotation + 2π/3` and `rotation + 4π/3`, none of them aged yet.
   */
  function Volley(origin: Vec, rotation: real, speed: real, radius: real): (v: seq<Fireball>)
    ensures |v| == 3
    ensures forall f :: f in v ==> f.pos == origin && f.speed == speed && f.radius == radius && f.life == 0
    ensures v[0].angle == rotation
    // consecutive headings, including the last back round to the first, are a third of a turn apart
    ensures v[1].angle - v[0].angle == TwoPi / 3.0 && v[2].angle - v[1].angle == TwoPi / 3.0
    ensures v[0].angle + TwoPi - v[2].angle == TwoPi / 3.0
  {
    seq(3, i requires 0 <= i < 3 => Fireball(origin, (TwoPi / 3.0) * (i as real) + rotation, speed, radius, 0))
  }

  /** One tick of flight: a step of `speed` along `angle`, one tick older. */
  function Moved(f: Fireball, trig: Trig): Fireball
  {
    var u := trig(f.angle);
    f.(pos := Vec(f.pos.x + u.x * f.speed, f.pos.y + u.y * f.speed), life := f.life + 1)
  }

  /** `Moved` in terms of the unit step `u` the trigonometry gives for the heading. */
  lemma MovedBy(f: Fireball, trig: Trig, u: Vec)
    requires u == trig(f.angle)
    ensures Moved(f, trig) == f.(pos := Vec(f.pos.x + u.x * f.speed, f.pos.y + u.y * f.speed), life := f.life + 1)
  {
    var g := Moved(f, trig);
    assert g.pos == Vec(f.pos.x + u.x * f.speed, f.pos.y + u.y * f.speed);
  }

  /** `p` lies more than `margin` outside the canvas on some axis. */
  predicate Outside(a: Arena, p: Vec, margin: real)
  {
    p.x < -margin || p.x > a.width + margin || p.y < -margin || p.y > a.height + margin
  }

  /** A moved fireball that the culling rule `c` removes. */
  predicate Gone(c: Culling, a: Arena, f: Fireball)
  {
    match c
    case FixedMarginOrOld => Outside(a, f.pos, 50.0) || f.life > 300
    case SizedMargin => Outside(a, f.pos, f.radius + 10.0)
  }

  /** The fireball list after one `updateFireballs`: every fireball moved, the gone ones dropped. */
  function Advance(fs: seq<Fireball>, trig: Trig, c: Culling, a: Arena): (r: seq<Fireball>)
    ensures |r| <= |fs|
  {
    if fs == [] then []
    else
      var g := Moved(fs[0], trig);
      (if Gone(c, a, g) then [] else [g]) + Advance(fs[1..], trig, c, a)
  }

  /**
   * One step of the backward splice loop: the fireballs from `i` on become
   * fireball `i` moved, unless it is gone, before those from `i + 1` on.
   */
  lemma AdvanceFrom(fs: seq<Fireball>, i: int, trig: Trig, c: Culling, a: Arena)
    requires 0 <= i < |fs|
    ensures Advance(fs[i..], trig, c, a)
         == (if Gone(c, a, Moved(fs[i], trig)) then [] else [Moved(fs[i], trig)]) + Advance(fs[i + 1..], trig, c, a)
  {
    assert fs[i..][0] == fs[i];
    assert fs[i..][1..] == fs[i + 1..];
  }

  /**
   * The list algebra of `splice(i, 1)` on a list that agrees with `fs` up
   * to `i` and continues with `tail`: removing position `i`, or putting
   * `mid` in its place, leaves `fs[..i]` in front.
   */
  lemma Spliced<T>(fs: seq<T>, i: int, tail: seq<T>, mid: seq<T>)
    requires 0 <= i < |fs|
    ensures var s := fs[..i + 1] + tail;
            && s[..i] + s[i + 1..] == fs[..i] + tail
            && s[..i] + mid + s[i + 1..] == fs[..i] + (mid + tail)
  {
    var s := fs[..i + 1] + tail;
    assert s[..i] == fs[..i];
    assert s[i + 1..] == tail;
  }

  /**
   * The indices of the fireballs that survive `Advance`, in increasing order:
   * survivor `j` is fireball `Kept(..)[j]` moved, and an index is kept
   * exactly when its moved fireball is not gone. So `Advance` moves every
   * fireball, removes exactly the gone ones and keeps the rest in order.
   */
  function Kept(fs: seq<Fireball>, trig: Trig, c: Culling, a: Arena): (ks: seq<nat>)
    ensures |ks| == |Advance(fs, trig, c, a)|
    ensures forall j :: 0 <= j < |ks| ==> ks[j] < |fs| && Advance(fs, trig, c, a)[j] == Moved(fs[ks[j]], trig)
    ensures forall j, k :: 0 <= j < k < |ks| ==> ks[j] < ks[k]
  {
    if fs == [] then []
    else
      var rest := Kept(fs[1..], trig, c, a);
      var moved := seq(|fs|, i requires 0 <= i < |fs| => Moved(fs[i], trig));
      var keep := !Gone(c, a, Moved(fs[0], trig));
      assert forall j :: 0 <= j < |rest| ==> fs[1..][rest[j]] == fs[rest[j] + 1];
      KeptStep(moved, keep, Advance(fs[1..], trig, c, a), rest);
      AdvanceFrom(fs, 0, trig, c, a);
      assert fs[0..] == fs;
      (if keep then [0] else []) + Shifted(rest)
  }

  /**
   * The step of `Kept`, for any list `moved` of moved items: index 0 if the
   * first survives, then the survivors of the rest with their indices moved
   * up by one.
   */
  lemma KeptStep<T>(moved: seq<T>, keep: bool, tail: seq<T>, rest: seq<nat>)
    requires |moved| > 0
    requires |rest| == |tail|
    requires forall j :: 0 <= j < |rest| ==> rest[j] + 1 < |moved| && tail[j] == moved[rest[j] + 1]
    requires forall j, k :: 0 <= j < k < |rest| ==> rest[j] < rest[k]
    ensures var ks: seq<nat> := (if keep then [0] else []) + Shifted(rest);
      var survivors := (if keep then [moved[0]] else []) + tail;
      && |ks| == |survivors|
      && (forall j :: 0 <= j < |ks| ==> ks[j] < |moved| && survivors[j] == moved[ks[j]])
      && (forall j, k :: 0 <= j < k < |ks| ==> ks[j] < ks[k])
  {
    ShiftedIncreasing(rest, keep);
  }

  /** Moving increasing indices up by one, behind an optional index 0, keeps them increasing. */
  lemma ShiftedIncreasing(ks: seq<nat>, withZero: bool)
    requires forall j, k :: 0 <= j < k < |ks| ==> ks[j] < ks[k]
    ensures var r: seq<nat> := (if withZero then [0] else []) + Shifted(ks);
      forall j, k :: 0 <= j < k < |r| ==> r[j] < r[k]
  {
  }

  /** An index is kept exactly when its moved fireball is not gone. */
  lemma {:induction false} KeptExactlyTheLiving(fs: seq<Fireball>, trig: Trig, c: Culling, a: Arena)
    ensures forall i :: 0 <= i < |fs| ==> (i in Kept(fs, trig, c, a) <==> !Gone(c, a, Moved(fs[i], trig)))
  {
    if fs != [] {
      var rest := Kept(fs[1..], trig, c, a);
      KeptExactlyTheLiving(fs[1..], trig, c, a);
      ShiftedMembers(rest);
      var head: seq<nat> := if Gone(c, a, Moved(fs[0], trig)) then [] else [0];
      var ks := Kept(fs, trig, c, a);
      assert ks == head + Shifted(rest);
      forall i | 0 <= i < |fs|
        ensures i in ks <==> !Gone(c, a, Moved(fs[i], trig))
      {
        if i == 0 {
          assert 0 !in Shifted(rest);
        } else {
          assert fs[1..][i - 1] == fs[i];
          assert i in ks <==> i in Shifted(rest);
          assert (i - 1) + 1 in Shifted(rest) <==> i - 1 in rest;
        }
      }
    }
  }

  /** Every index of `ks` moved up by one. */
  function Shifted(ks: seq<nat>): (r: seq<nat>)
    ensures |r| == |ks| && forall j :: 0 <= j < |ks| ==> r[j] == ks[j] + 1
  {
    seq(|ks|, j requires 0 <= j < |ks| => ks[j] + 1)
  }

  lemma ShiftedMembers(ks: seq<nat>)
    ensures 0 !in Shifted(ks)
    ensures forall i: nat :: i + 1 in Shifted(ks) <==> i in ks
  {
    var r := Shifted(ks);
    forall i: nat
      ensures i + 1 in r <==> i in ks
    {
      if i in ks {
        var j :| 0 <= j < |ks| && ks[j] == i;
        assert r[j] == i + 1;
      }
      if i + 1 in r {
        var j :| 0 <= j < |r| && r[j] == i + 1;
        assert ks[j] == i;
      }
    }
  }

  /** Every survivor of `Advance` is some input fireball moved, and is not gone. */
  lemma {:induction false} AdvanceSurvivors(fs: seq<Fireball>, trig: Trig, c: Culling, a: Arena)
    ensures forall g :: g in Advance(fs, trig, c, a) ==>
              !Gone(c, a, g) && exists i :: 0 <= i < |fs| && g == Moved(fs[i], trig)
  {
    if fs != [] {
      AdvanceSurvivors(fs[1..], trig, c, a);
      forall g | g in Advance(fs[1..], trig, c, a)
        ensures exists i :: 0 <= i < |fs| && g == Moved(fs[i], trig)
      {
        var i :| 0 <= i < |fs[1..]| && g == Moved(fs[1..][i], trig);
        assert g == Moved(fs[i + 1], trig);
      }
    }
  }

  /** Under the first version's rule no surviving fireball is older than 300 ticks. */
  lemma SurvivorsAreYoung(fs: seq<Fireball>, trig: Trig, a: Arena)
    ensures forall g :: g in Advance(fs, trig, FixedMarginOrOld, a) ==> g.life <= 300
  {
    AdvanceSurvivors(fs, trig, FixedMarginOrOld, a);
  }

  /** The fireball `f` overlaps a round body of `bodyRadius` at `at`. */
  predicate HitBy(at: Vec, bodyRadius: real, f: Fireball)
  {
    Within(at, f.pos, bodyRadius + f.radius)
  }

  /** Some fireball of `fs` overlaps the body. */
  predicate AnyHit(at: Vec, bodyRadius: real, fs: seq<Fireball>)
  {
    exists i :: 0 <= i < |fs| && HitBy(at, bodyRadius, fs[i])
  }

  /**
   * The backward scan of `checkCollisions`: the last fireball of the list
   * that overlaps the body, if there is one.
   */
  method FindHit(at: Vec, bodyRadius: real, fs: seq<Fireball>) returns (found: bool, index: nat)
    ensures found <==> AnyHit(at, bodyRadius, fs)
    ensures found ==> index < |fs| && HitBy(at, bodyRadius, fs[index])
    ensures found ==> forall j :: index < j < |fs| ==> !HitBy(at, bodyRadius, fs[j])
  {
    var i := |fs|;
    while i > 0
      invariant 0 <= i <= |fs|
      invariant forall j :: i <= j < |fs| ==> !HitBy(at, bodyRadius, fs[j])
    {
      i := i - 1;
      if HitBy(at, bodyRadius, fs[i]) {
        return true, i;
      }
    }
    return false, 0;
  }
}

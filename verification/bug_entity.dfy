/**
  One enemy ("bug"): armour-adjusted damage, slow effects and movement
  along the level's polyline, one frame at a time.
 */
module BugEntity {
  import opened Types

  /** `target` is the waypoint the bug is currently heading for; `speed`
      is in pixels per frame and `slowDuration` counts frames. */
  datatype Bug = Bug(
    id: nat,
    bugType: BugType,
    hp: int,
    maxHp: int,
    speed: real,
    reward: int,
    isBoss: bool,
    armor: int,
    pos: Point,
    target: Point,
    pathIndex: nat,
    isAlive: bool,
    slowFactor: real,
    slowDuration: real)

  /** What every bug built from the stat table satisfies and every
      operation below preserves. */
  predicate WellFormed(b: Bug) {
    && 0 <= b.hp <= b.maxHp
    && b.speed > 0.0
    && 0.0 < b.slowFactor <= 1.0
    && b.armor >= 0
    && b.reward >= 0
  }

  /** The bug heads for the waypoint after the one its index names. */
  predicate Tracking(b: Bug, path: seq<Point>) {
    b.pathIndex + 1 < |path| && b.target == path[b.pathIndex + 1]
  }

  function NewBug(id: nat, t: BugType, path: seq<Point>): (b: Bug)
    requires |path| >= 1
    ensures b.id == id && b.bugType == t && b.reward == BugConfigOf(t).reward
    ensures b.pos == path[0] && b.pathIndex == 0 && b.isAlive
    ensures b.hp == b.maxHp == BugConfigOf(t).maxHp
    ensures b.slowFactor == 1.0 && b.slowDuration == 0.0
    ensures WellFormed(b)
    ensures |path| >= 2 ==> Tracking(b, path) && (AxisAligned(path) ==> OnAxis(b.pos, b.target))
  {
    var c := BugConfigOf(t);
    Bug(id, t, c.hp, c.maxHp, c.speed, c.reward, c.isBoss, c.armor,
        path[0], if |path| > 1 then path[1] else path[0], 0, true, 1.0, 0.0)
  }

  // ---------------------------------------------------------------------
  // Damage
  // ---------------------------------------------------------------------

  /** Armour subtracts from every hit, but a hit always deals at least 1. */
  function EffectiveDamage(damage: int, armor: int): (e: int)
    ensures e >= 1 && e >= damage - armor
    ensures e == 1 || e == damage - armor
  {
    if damage - armor > 1 then damage - armor else 1
  }

  /** Returns the hit bug and whether this hit killed it. */
  function TakeDamage(b: Bug, damage: int): (r: (Bug, bool))
    ensures r.0.hp >= 0 || b.hp < 0
    ensures r.0.hp == b.hp - EffectiveDamage(damage, b.armor)
         || (r.0.hp == 0 && b.hp <= EffectiveDamage(damage, b.armor))
    ensures r.1 <==> r.0.hp == 0
    ensures r.1 ==> !r.0.isAlive
    ensures !r.1 ==> r.0.isAlive == b.isAlive
    ensures r.0 == b.(hp := r.0.hp, isAlive := r.0.isAlive)
    ensures WellFormed(b) ==> WellFormed(r.0)
  {
    var hp := b.hp - EffectiveDamage(damage, b.armor);
    if hp <= 0 then (b.(hp := 0, isAlive := false), true)
    else (b.(hp := hp), false)
  }

  /** The bug after `n` hits of `damage`. */
  function Hits(b: Bug, damage: int, n: nat): Bug {
    if n == 0 then b else TakeDamage(Hits(b, damage, n - 1), damage).0
  }

  /** After n hits the health is what n effective hits leave, clamped at
      zero, and the bug is dead exactly when that reaches zero. */
  lemma {:induction false} HitsClosedForm(b: Bug, damage: int, n: nat)
    requires b.hp >= 0
    ensures var e := EffectiveDamage(damage, b.armor);
      Hits(b, damage, n).hp == (if b.hp - n * e > 0 then b.hp - n * e else 0)
    ensures var e := EffectiveDamage(damage, b.armor);
      n >= 1 ==> (Hits(b, damage, n).isAlive <==> b.isAlive && b.hp - n * e > 0)
    ensures Hits(b, damage, n).armor == b.armor
  {
    if n > 0 {
      HitsClosedForm(b, damage, n - 1);
      var e := EffectiveDamage(damage, b.armor);
      assert (n - 1) * e + e == n * e;
      assert n * e >= (n - 1) * e;
    }
  }

  /** A Typo (50 hp, no armour) hit by a junior developer (15 damage)
      survives three hits with 5 hp and dies on the fourth, at 0 hp. */
  lemma TypoDiesOnFourthHit(id: nat, path: seq<Point>)
    requires |path| >= 1
    ensures var b := NewBug(id, Typo, path);
      var d := DeveloperConfigOf(JuniorDev).damage;
      && Hits(b, d, 3).isAlive && Hits(b, d, 3).hp == 5
      && TakeDamage(Hits(b, d, 3), d).1
      && !Hits(b, d, 4).isAlive && Hits(b, d, 4).hp == 0
  {
    var b := NewBug(id, Typo, path);
    HitsClosedForm(b, 15, 3);
    HitsClosedForm(b, 15, 4);
  }

  // ---------------------------------------------------------------------
  // Slow effects
  // ---------------------------------------------------------------------

  /** Slows do not stack: the strongest factor and the longest duration win. */
  function ApplySlow(b: Bug, factor: real, duration: real): (r: Bug)
    ensures r.slowFactor <= b.slowFactor && r.slowFactor <= factor
    ensures r.slowFactor == b.slowFactor || r.slowFactor == factor
    ensures r.slowDuration >= b.slowDuration && r.slowDuration >= duration
    ensures r.slowDuration == b.slowDuration || r.slowDuration == duration
    ensures r == b.(slowFactor := r.slowFactor, slowDuration := r.slowDuration)
    ensures WellFormed(b) && factor > 0.0 ==> WellFormed(r)
  {
    b.(slowFactor := if factor < b.slowFactor then factor else b.slowFactor,
       slowDuration := if duration > b.slowDuration then duration else b.slowDuration)
  }

  lemma ApplySlowCommutes(b: Bug, f1: real, d1: real, f2: real, d2: real)
    ensures ApplySlow(ApplySlow(b, f1, d1), f2, d2) == ApplySlow(ApplySlow(b, f2, d2), f1, d1)
  {
  }

  lemma ApplySlowIdempotent(b: Bug, f: real, d: real)
    ensures ApplySlow(ApplySlow(b, f, d), f, d) == ApplySlow(b, f, d)
  {
  }

  /** A fresh bug slowed by (0.5, 2000) and then by (0.8, 500) keeps the
      first, stronger and longer, effect. */
  lemma SlowCompositionExample(id: nat, t: BugType, path: seq<Point>)
    requires |path| >= 1
    ensures var b := ApplySlow(ApplySlow(NewBug(id, t, path), 0.5, 2000.0), 0.8, 500.0);
      b.slowFactor == 0.5 && b.slowDuration == 2000.0
  {
  }

  // ---------------------------------------------------------------------
  // Movement
  // ---------------------------------------------------------------------

  /** One straight step of length `step` toward `target`. Along an axis the
      unit direction is +1 or -1 on the coordinate that differs, exactly as
      the Euclidean normalisation gives; a diagonal step is normalised by
      the coordinate-wise (Manhattan) distance instead. */
  function Approach(pos: Point, target: Point, step: real): (r: Point)
    requires step > 0.0 && SqDist(pos, target) >= Sq(step)
    ensures OnAxis(pos, target) ==> OnAxis(r, target)
    ensures OnAxis(pos, target) ==>
      Abs(target.x - r.x) + Abs(target.y - r.y) == Abs(target.x - pos.x) + Abs(target.y - pos.y) - step
  {
    var dx := target.x - pos.x;
    var dy := target.y - pos.y;
    if dx == 0.0 then
      SqBound(pos.y - target.y, step);
      Point(pos.x, if dy > 0.0 then pos.y + step else pos.y - step)
    else if dy == 0.0 then
      SqBound(pos.x - target.x, step);
      Point(if dx > 0.0 then pos.x + step else pos.x - step, pos.y)
    else
      var d := Abs(dx) + Abs(dy);
      Point(pos.x + dx / d * step, pos.y + dy / d * step)
  }

  /** Movement of a live bug: snap onto the target waypoint when it is
      closer than one step, otherwise step toward it. */
  function Move(b: Bug, path: seq<Point>, frames: real): (r: (Bug, bool))
    requires |path| >= 1 && frames > 0.0 && b.speed > 0.0 && b.slowFactor > 0.0
  {
    var step := Mul(Mul(b.speed, b.slowFactor), frames);
    MulPos(b.speed, b.slowFactor);
    MulPos(Mul(b.speed, b.slowFactor), frames);
    if SqDist(b.pos, b.target) < Sq(step) then
      var idx := b.pathIndex + 1;
      if idx >= |path| - 1 then (b.(pos := b.target, pathIndex := idx), true)
      else (b.(pos := b.target, pathIndex := idx, target := path[idx + 1]), false)
    else
      (b.(pos := Approach(b.pos, b.target, step)), false)
  }

  /** The slow countdown of one frame: on expiry the factor resets to 1. */
  function DecaySlow(b: Bug, frames: real): Bug {
    if b.slowDuration > 0.0 then
      var d := b.slowDuration - frames;
      b.(slowDuration := d, slowFactor := if d <= 0.0 then 1.0 else b.slowFactor)
    else b
  }

  /** One frame of `frames` frame units. Returns the bug and whether it
      reached the end of the path this frame. */
  function Update(b: Bug, path: seq<Point>, frames: real): (r: (Bug, bool))
    requires |path| >= 1 && frames > 0.0 && b.speed > 0.0 && b.slowFactor > 0.0
    ensures !b.isAlive ==> r == (b, false)
    ensures r.0.pathIndex == b.pathIndex || r.0.pathIndex == b.pathIndex + 1
    ensures r.1 <==> b.isAlive && r.0.pathIndex == b.pathIndex + 1 && r.0.pathIndex >= |path| - 1
    ensures r.0.pathIndex == b.pathIndex + 1 ==> r.0.pos == b.target
    ensures r.0.id == b.id && r.0.bugType == b.bugType && r.0.reward == b.reward
    ensures r.0.hp == b.hp && r.0.maxHp == b.maxHp && r.0.armor == b.armor
    ensures r.0.speed == b.speed && r.0.isBoss == b.isBoss && r.0.isAlive == b.isAlive
    ensures b.isAlive && b.slowDuration > 0.0 ==>
      && r.0.slowDuration == b.slowDuration - frames
      && r.0.slowFactor == (if r.0.slowDuration <= 0.0 then 1.0 else b.slowFactor)
    ensures b.slowDuration <= 0.0 ==> r.0.slowDuration == b.slowDuration && r.0.slowFactor == b.slowFactor
    ensures WellFormed(b) ==> WellFormed(r.0)
    // a live bug snaps onto its waypoint exactly when the waypoint is closer
    // than this frame's step; otherwise it steps that far toward it
    ensures var step := Mul(Mul(DecaySlow(b, frames).speed, DecaySlow(b, frames).slowFactor), frames);
      b.isAlive ==> (r.0.pathIndex == b.pathIndex + 1 <==> SqDist(b.pos, b.target) < Sq(step))
    ensures r.0.pathIndex == b.pathIndex ==> r.0.target == b.target
    ensures var step := Mul(Mul(DecaySlow(b, frames).speed, DecaySlow(b, frames).slowFactor), frames);
      b.isAlive && OnAxis(b.pos, b.target) && r.0.pathIndex == b.pathIndex ==>
        Abs(b.target.x - r.0.pos.x) + Abs(b.target.y - r.0.pos.y)
          == Abs(b.target.x - b.pos.x) + Abs(b.target.y - b.pos.y) - step
  {
    if !b.isAlive then (b, false)
    else Move(DecaySlow(b, frames), path, frames)
  }

  /** On its path a live bug either arrives exactly on the last waypoint
      (and reports it) or keeps heading for the next waypoint; on an
      axis-aligned path it never leaves the segment it walks. */
  lemma UpdateFollowsPath(b: Bug, path: seq<Point>, frames: real)
    requires |path| >= 1 && frames > 0.0 && b.speed > 0.0 && b.slowFactor > 0.0
    requires b.isAlive && Tracking(b, path)
    ensures var r := Update(b, path, frames);
      r.1 ==> r.0.pos == path[|path| - 1] && r.0.pathIndex == |path| - 1
    ensures var r := Update(b, path, frames);
      !r.1 ==> Tracking(r.0, path)
    ensures var r := Update(b, path, frames);
      AxisAligned(path) && OnAxis(b.pos, b.target) ==> OnAxis(r.0.pos, r.0.target)
  {
    var r := Update(b, path, frames);
    if r.0.pathIndex == b.pathIndex + 1 && !r.1 {
      assert r.0.pos == path[r.0.pathIndex];
    }
  }
}

/**
  One tower ("developer"): target eligibility, target choice, the attack
  with its cooldown and per-archetype specials, level-ups and prices.
 */
module DeveloperEntity {
  import opened Types
  import opened BugEntity

  /** `attackSpeed` is the cooldown in ms; `lastAttackTime` is the time of
      the last attack that found a target; `currentTarget` names that
      target's bug id. */
  datatype Tower = Tower(
    id: nat,
    devType: DeveloperType,
    cost: int,
    damage: int,
    attackSpeed: int,
    range: int,
    targetBugTypes: seq<BugType>,
    pos: Point,
    level: int,
    isAOE: bool,
    lastAttackTime: real,
    currentTarget: Option<nat>)

  const MaxLevel: int := 3
  /** Splash radius of an area attack, around the chosen target. */
  const AoeRadius: real := 80.0
  /** The slow a UI designer's splash applies: factor and duration. */
  const DesignerSlowFactor: real := 0.5
  const DesignerSlowDuration: real := 2000.0

  predicate WellFormedTower(t: Tower) {
    && 1 <= t.level <= MaxLevel
    && t.cost > 0
    && t.damage >= 0
    && t.range >= 0
    && t.attackSpeed >= 0
  }

  function NewTower(id: nat, dt: DeveloperType, pos: Point): (t: Tower)
    ensures t.id == id && t.devType == dt && t.pos == pos
    ensures var c := DeveloperConfigOf(dt);
      && t.cost == c.cost && t.damage == c.damage && t.attackSpeed == c.attackSpeed
      && t.range == c.range && t.targetBugTypes == c.targetBugTypes && t.isAOE == c.isAOE
    ensures t.level == 1 && t.lastAttackTime == 0.0 && t.currentTarget == None
    ensures WellFormedTower(t)
  {
    var c := DeveloperConfigOf(dt);
    Tower(id, dt, c.cost, c.damage, c.attackSpeed, c.range, c.targetBugTypes,
          pos, c.level, c.isAOE, 0.0, None)
  }

  // ---------------------------------------------------------------------
  // Targeting
  // ---------------------------------------------------------------------

  /** The bug's type is one the tower may hit and the bug is in range.
      Range is compared on squares; a negative range admits nothing, as
      no distance is below it. */
  predicate CanAttack(t: Tower, b: Bug) {
    && b.bugType in t.targetBugTypes
    && t.range >= 0
    && SqDist(t.pos, b.pos) <= Sq(t.range as real)
  }

  /** For the Euclidean distance `d`, the squared test is the distance test. */
  lemma CanAttackIsEuclidean(t: Tower, b: Bug, d: real)
    requires d >= 0.0 && Sq(d) == SqDist(t.pos, b.pos)
    ensures CanAttack(t, b) <==> b.bugType in t.targetBugTypes && d <= t.range as real
  {
    if t.range >= 0 {
      SqLeIff(d, t.range as real);
    }
  }

  predicate Eligible(t: Tower, b: Bug) {
    b.isAlive && CanAttack(t, b)
  }

  /** Among the first `n` bugs, `k` is eligible, no eligible bug is further
      along the path, and every eligible bug before `k` is strictly behind it. */
  predicate BestAmong(t: Tower, bugs: seq<Bug>, n: nat, k: nat)
    requires n <= |bugs|
  {
    && k < n
    && Eligible(t, bugs[k])
    && (forall j :: 0 <= j < n && Eligible(t, bugs[j]) ==> bugs[j].pathIndex <= bugs[k].pathIndex)
    && (forall j :: 0 <= j < k && Eligible(t, bugs[j]) ==> bugs[j].pathIndex < bugs[k].pathIndex)
  }

  /** The furthest eligible bug, the earliest in list order among ties. */
  predicate IsFirstBest(t: Tower, bugs: seq<Bug>, k: nat) {
    BestAmong(t, bugs, |bugs|, k)
  }

  lemma FirstBestUnique(t: Tower, bugs: seq<Bug>, k1: nat, k2: nat)
    requires IsFirstBest(t, bugs, k1) && IsFirstBest(t, bugs, k2)
    ensures k1 == k2
  {
  }

  /** `findTarget`'s loop: `best` and `highest` are the running
      choice and its path index (-1 before any eligible bug). */
  function FindTargetFrom(t: Tower, bugs: seq<Bug>, i: nat, best: Option<nat>, highest: int): (r: Option<nat>)
    requires i <= |bugs|
    requires best.None? ==> highest == -1 && forall j :: 0 <= j < i ==> !Eligible(t, bugs[j])
    requires best.Some? ==> BestAmong(t, bugs, i, best.value) && highest == bugs[best.value].pathIndex
    ensures r.None? <==> forall j :: 0 <= j < |bugs| ==> !Eligible(t, bugs[j])
    ensures r.Some? ==> IsFirstBest(t, bugs, r.value)
    decreases |bugs| - i
  {
    if i == |bugs| then best
    else if !bugs[i].isAlive || !CanAttack(t, bugs[i]) then
      FindTargetFrom(t, bugs, i + 1, best, highest)
    else if bugs[i].pathIndex > highest then
      FindTargetFrom(t, bugs, i + 1, Some(i), bugs[i].pathIndex)
    else
      FindTargetFrom(t, bugs, i + 1, best, highest)
  }

  /** The index of the bug the tower shoots, or None when no live bug is
      eligible. */
  function FindTarget(t: Tower, bugs: seq<Bug>): (r: Option<nat>)
    ensures r.None? <==> forall j :: 0 <= j < |bugs| ==> !Eligible(t, bugs[j])
    ensures r.Some? ==> IsFirstBest(t, bugs, r.value)
  {
    FindTargetFrom(t, bugs, 0, None, -1)
  }

  // ---------------------------------------------------------------------
  // Kill bookkeeping
  // ---------------------------------------------------------------------

  /** The bugs (as they are after) that were alive before and are dead after,
      in list order. */
  function Died(before: seq<Bug>, after: seq<Bug>): seq<Bug>
    requires |before| == |after|
  {
    if |before| == 0 then []
    else (if before[0].isAlive && !after[0].isAlive then [after[0]] else [])
         + Died(before[1..], after[1..])
  }

  function SumRewards(bugs: seq<Bug>): int {
    if |bugs| == 0 then 0 else bugs[0].reward + SumRewards(bugs[1..])
  }

  /** The total bounty of the bugs that died between two snapshots. */
  function Bounty(before: seq<Bug>, after: seq<Bug>): int
    requires |before| == |after|
  {
    SumRewards(Died(before, after))
  }

  /** The same bugs, in the same order: identity and bounty kept, and a dead
      bug is left exactly as it was. */
  predicate SameBugs(before: seq<Bug>, after: seq<Bug>) {
    && |before| == |after|
    && forall i :: 0 <= i < |before| ==>
         && after[i].id == before[i].id
         && after[i].reward == before[i].reward
         && (!before[i].isAlive ==> after[i] == before[i])
  }

  lemma SumRewardsAppend(a: seq<Bug>, b: seq<Bug>)
    ensures SumRewards(a + b) == SumRewards(a) + SumRewards(b)
  {
    if |a| > 0 {
      assert (a + b)[0] == a[0];
      assert (a + b)[1..] == a[1..] + b;
      SumRewardsAppend(a[1..], b);
    } else {
      assert a + b == b;
    }
  }

  lemma SumRewardsNonNeg(bugs: seq<Bug>)
    requires forall i :: 0 <= i < |bugs| ==> bugs[i].reward >= 0
    ensures SumRewards(bugs) >= 0
  {
  }

  lemma BountyUnfold(before: seq<Bug>, after: seq<Bug>)
    requires |before| == |after| && |before| > 0
    ensures Bounty(before, after)
         == (if before[0].isAlive && !after[0].isAlive then after[0].reward else 0)
            + Bounty(before[1..], after[1..])
  {
    var head := if before[0].isAlive && !after[0].isAlive then [after[0]] else [];
    SumRewardsAppend(head, Died(before[1..], after[1..]));
  }

  /** Bounties add up along a run of snapshots: no bug is paid for twice. */
  lemma {:induction false} BountyAdditive(a: seq<Bug>, b: seq<Bug>, c: seq<Bug>)
    requires SameBugs(a, b) && SameBugs(b, c)
    ensures Bounty(a, c) == Bounty(a, b) + Bounty(b, c)
  {
    if |a| > 0 {
      BountyUnfold(a, b);
      BountyUnfold(b, c);
      BountyUnfold(a, c);
      BountyAdditive(a[1..], b[1..], c[1..]);
    }
  }

  lemma BountyNonNeg(before: seq<Bug>, after: seq<Bug>)
    requires SameBugs(before, after)
    requires forall i :: 0 <= i < |before| ==> before[i].reward >= 0
    ensures Bounty(before, after) >= 0
  {
    if |before| > 0 {
      BountyUnfold(before, after);
      BountyNonNeg(before[1..], after[1..]);
    }
  }

  /** Changing one bug leaves the other positions out of the died list. */
  lemma {:induction false} DiedAtOne(bugs: seq<Bug>, k: nat, b: Bug)
    requires k < |bugs|
    ensures Died(bugs, bugs[k := b]) == if bugs[k].isAlive && !b.isAlive then [b] else []
  {
    if k == 0 {
      assert bugs[k := b][1..] == bugs[1..];
      DiedUnchanged(bugs[1..]);
    } else {
      assert bugs[k := b][1..] == bugs[1..][k - 1 := b];
      DiedAtOne(bugs[1..], k - 1, b);
    }
  }

  lemma DiedUnchanged(bugs: seq<Bug>)
    ensures Died(bugs, bugs) == []
  {
  }

  // ---------------------------------------------------------------------
  // Attack
  // ---------------------------------------------------------------------

  /** `target` is the hit bug in single-target mode (None in area mode);
      `delayedHit` names the bug a data engineer's deferred hit is for. */
  datatype AttackResult = AttackResult(
    tower: Tower,
    bugs: seq<Bug>,
    target: Option<Bug>,
    killed: seq<Bug>,
    damage: int,
    delayedHit: Option<nat>)

  datatype SplashResult = SplashResult(bugs: seq<Bug>, killed: seq<Bug>, damage: int)

  /** A live bug within the splash radius of the centre; type and the
      tower's range play no part. */
  predicate InSplash(b: Bug, center: Point) {
    b.isAlive && SqDist(b.pos, center) <= Sq(AoeRadius)
  }

  /** What an area attack does to one bug. */
  function SplashHit(b: Bug, center: Point, damage: int, slows: bool): Bug {
    if InSplash(b, center) then
      var h := TakeDamage(b, damage).0;
      if slows then ApplySlow(h, DesignerSlowFactor, DesignerSlowDuration) else h
    else b
  }

  function SplashCount(bugs: seq<Bug>, center: Point): nat {
    if |bugs| == 0 then 0
    else (if InSplash(bugs[0], center) then 1 else 0) + SplashCount(bugs[1..], center)
  }

  /** `attack`'s area loop, bug by bug. */
  function Splash(bugs: seq<Bug>, center: Point, damage: int, slows: bool): (r: SplashResult)
    ensures |r.bugs| == |bugs|
    ensures forall i :: 0 <= i < |bugs| ==> r.bugs[i] == SplashHit(bugs[i], center, damage, slows)
    ensures r.killed == Died(bugs, r.bugs)
    ensures r.damage == damage * SplashCount(bugs, center)
  {
    if |bugs| == 0 then SplashResult([], [], 0)
    else
      var rest := Splash(bugs[1..], center, damage, slows);
      var b := bugs[0];
      var hit := TakeDamage(b, damage);
      var h := SplashHit(b, center, damage, slows);
      var killed := if InSplash(b, center) && hit.1 then [h] else [];
      var r := SplashResult([h] + rest.bugs, killed + rest.killed,
                            (if InSplash(b, center) then damage else 0) + rest.damage);
      SplashStep(b, center, damage, slows);
      assert r.bugs[0] == h && r.bugs[1..] == rest.bugs;
      assert r.killed == Died(bugs, r.bugs);
      assert forall i :: 1 <= i < |bugs| ==> r.bugs[i] == rest.bugs[i - 1] && bugs[1..][i - 1] == bugs[i];
      ScaleStep(damage, InSplash(b, center), SplashCount(bugs[1..], center));
      r
  }

  lemma ScaleStep(damage: int, hit: bool, rest: nat)
    ensures damage * ((if hit then 1 else 0) + rest) == (if hit then damage else 0) + damage * rest
  {
  }

  /** One bug of the area attack: it is on the killed list exactly when it
      was alive before and is dead after. */
  lemma SplashStep(b: Bug, center: Point, damage: int, slows: bool)
    ensures var h := SplashHit(b, center, damage, slows);
      (InSplash(b, center) && TakeDamage(b, damage).1) <==> (b.isAlive && !h.isAlive)
    ensures var h := SplashHit(b, center, damage, slows);
      h.id == b.id && h.reward == b.reward && (!b.isAlive ==> h == b)
  {
  }

  /** Single-target damage: a security expert deals double against a boss. */
  function SingleDamage(t: Tower, b: Bug): int {
    if t.devType == SecurityExpert && b.isBoss then t.damage * 2 else t.damage
  }

  predicate OnCooldown(t: Tower, now: real) {
    now - t.lastAttackTime < t.attackSpeed as real
  }

  /** The attack finds a target and deals damage. */
  predicate Fires(t: Tower, now: real, bugs: seq<Bug>) {
    !OnCooldown(t, now) && FindTarget(t, bugs).Some?
  }

  function Attack(t: Tower, now: real, bugs: seq<Bug>): (r: AttackResult)
    // the cooldown gate: nothing at all changes
    ensures OnCooldown(t, now) ==> r == AttackResult(t, bugs, None, [], 0, None)
    // no target: the remembered target is cleared, nothing else changes
    ensures !OnCooldown(t, now) && FindTarget(t, bugs).None? ==>
      r == AttackResult(t.(currentTarget := None), bugs, None, [], 0, None)
    // only an attack that fires restarts the cooldown
    ensures r.tower == t.(lastAttackTime := r.tower.lastAttackTime, currentTarget := r.tower.currentTarget)
    ensures r.tower.lastAttackTime == if Fires(t, now, bugs) then now else t.lastAttackTime
    ensures Fires(t, now, bugs) ==> r.tower.currentTarget == Some(bugs[FindTarget(t, bugs).value].id)
    // area mode: every live bug near the target is hit, whatever its type or range
    ensures Fires(t, now, bugs) && t.isAOE ==>
      var center := bugs[FindTarget(t, bugs).value].pos;
      && |r.bugs| == |bugs|
      && (forall i :: 0 <= i < |bugs| ==> r.bugs[i] == SplashHit(bugs[i], center, t.damage, t.devType == UIDesigner))
      && r.target == None && r.delayedHit == None
      && r.damage == t.damage * SplashCount(bugs, center)
    // single-target mode: only the target is hit
    ensures Fires(t, now, bugs) && !t.isAOE ==>
      var k := FindTarget(t, bugs).value;
      var hit := TakeDamage(bugs[k], SingleDamage(t, bugs[k]));
      && r.bugs == bugs[k := hit.0]
      && r.target == Some(hit.0)
      && r.damage == SingleDamage(t, bugs[k])
      && r.delayedHit == (if t.devType == DataEngineer && !hit.1 then Some(bugs[k].id) else None)
    // the killed list is exactly the bugs this attack killed
    ensures r.killed == Died(bugs, r.bugs)
    ensures SameBugs(bugs, r.bugs)
  {
    DiedUnchanged(bugs);
    if OnCooldown(t, now) then AttackResult(t, bugs, None, [], 0, None)
    else
      match FindTarget(t, bugs)
      case None => AttackResult(t.(currentTarget := None), bugs, None, [], 0, None)
      case Some(k) =>
        var target := bugs[k];
        var fired := t.(currentTarget := Some(target.id), lastAttackTime := now);
        if t.isAOE then
          var s := Splash(bugs, target.pos, t.damage, t.devType == UIDesigner);
          AttackResult(fired, s.bugs, None, s.killed, s.damage, None)
        else
          var dmg := SingleDamage(t, target);
          var hit := TakeDamage(target, dmg);
          DiedAtOne(bugs, k, hit.0);
          AttackResult(fired, bugs[k := hit.0], Some(hit.0), if hit.1 then [hit.0] else [], dmg,
                       if t.devType == DataEngineer && !hit.1 then Some(target.id) else None)
  }

  /** Two attacks that both fire are at least the cooldown apart. */
  lemma CooldownSpacing(t: Tower, now1: real, bugs1: seq<Bug>, now2: real, bugs2: seq<Bug>)
    ensures Fires(t, now1, bugs1) && Fires(Attack(t, now1, bugs1).tower, now2, bugs2) ==>
      now2 - now1 >= t.attackSpeed as real
  {
  }

  // ---------------------------------------------------------------------
  // Level-ups and prices
  // ---------------------------------------------------------------------

  /** Returns the tower and whether it levelled up. Each stat is scaled and
      floored: damage x1.5, range x1.1, cooldown x0.9. */
  function Upgrade(t: Tower): (r: (Tower, bool))
    ensures r.1 <==> t.level < MaxLevel
    ensures !r.1 ==> r.0 == t
    ensures r.1 ==>
      && r.0.level == t.level + 1
      && 2 * r.0.damage <= 3 * t.damage < 2 * r.0.damage + 2
      && 10 * r.0.range <= 11 * t.range < 10 * r.0.range + 10
      && 10 * r.0.attackSpeed <= 9 * t.attackSpeed < 10 * r.0.attackSpeed + 10
    ensures r.0 == t.(level := r.0.level, damage := r.0.damage, range := r.0.range, attackSpeed := r.0.attackSpeed)
    ensures WellFormedTower(t) ==> WellFormedTower(r.0)
    ensures t.level <= MaxLevel ==> r.0.level <= MaxLevel
  {
    if t.level >= MaxLevel then (t, false)
    else
      (t.(level := t.level + 1,
          damage := t.damage * 3 / 2,
          range := t.range * 11 / 10,
          attackSpeed := t.attackSpeed * 9 / 10), true)
  }

  /** Half the base cost per current level, floored. */
  function UpgradeCost(t: Tower): (c: int)
    ensures 2 * c <= t.cost * t.level < 2 * c + 2
  {
    t.cost * t.level / 2
  }

  /** 70% of the base cost plus 25% of it per level above 1, floored. */
  function SellPrice(t: Tower): (p: int)
    ensures 20 * p <= 14 * t.cost + 5 * (t.level - 1) * t.cost < 20 * p + 20
  {
    (14 * t.cost + 5 * (t.level - 1) * t.cost) / 20
  }

  /** Selling a tower never pays less after a level-up. */
  lemma SellPriceMonotone(t: Tower, l1: int, l2: int)
    requires t.cost >= 0 && l1 <= l2
    ensures SellPrice(t.(level := l1)) <= SellPrice(t.(level := l2))
  {
    assert 5 * (l2 - 1) * t.cost - 5 * (l1 - 1) * t.cost == 5 * (l2 - l1) * t.cost;
    assert 5 * (l2 - l1) * t.cost >= 0;
    var n1 := 14 * t.cost + 5 * (l1 - 1) * t.cost;
    var n2 := 14 * t.cost + 5 * (l2 - 1) * t.cost;
    assert n1 <= n2;
    assert n1 / 20 <= n2 / 20;
  }
}

/**
  Shared vocabulary of the tower-defence simulation: the enemy ("bug") and
  tower ("developer") archetypes, the game status, plane geometry, and the
  static per-archetype stat tables.
 */
module Types {

  datatype Option<+T> = None | Some(value: T)

  /** Enemy archetypes, weakest first; `SystemCrash` is the boss. */
  datatype BugType = Typo | NullPointerException | MemoryLeak | SystemCrash

  /** Tower archetypes. */
  datatype DeveloperType = JuniorDev | SeniorArchitect | UIDesigner | DataEngineer | SecurityExpert

  /** The five statuses of a run. */
  datatype GameStatus = Idle | Playing | Paused | Victory | Defeat

  // ---------------------------------------------------------------------
  // Geometry
  // ---------------------------------------------------------------------

  datatype Point = Point(x: real, y: real)

  function Abs(r: real): real {
    if r < 0.0 then -r else r
  }

  /** Real products are kept behind `Sq` and `Mul` so that the solver
      treats them as opaque terms unless a lemma below is invoked. */
  function Sq(r: real): real {
    r * r
  }

  function Mul(a: real, b: real): real {
    a * b
  }

  /** Squared Euclidean distance; comparing it with a squared radius
      replaces the square root in `canAttack`. */
  function SqDist(p: Point, q: Point): real {
    Sq(p.x - q.x) + Sq(p.y - q.y)
  }

  /** Two points lie on a common horizontal or vertical line. */
  predicate OnAxis(p: Point, q: Point) {
    p.x == q.x || p.y == q.y
  }

  /** Every segment of the polyline is horizontal or vertical. */
  predicate AxisAligned(path: seq<Point>) {
    forall i :: 0 <= i < |path| - 1 ==> OnAxis(path[i], path[i + 1])
  }

  lemma MulPos(a: real, b: real)
    requires a > 0.0 && b > 0.0
    ensures Mul(a, b) > 0.0
  {
  }

  lemma SqNonNeg(a: real)
    ensures Sq(a) >= 0.0
  {
  }

  lemma SqAbs(a: real)
    ensures Sq(Abs(a)) == Sq(a)
  {
  }

  /** Squaring is strictly monotone on the non-negative reals. */
  lemma SqStrictMono(a: real, b: real)
    requires 0.0 <= a < b
    ensures Sq(a) < Sq(b)
  {
    assert b * b - a * a == (b - a) * (b + a);
    MulPos(b - a, b + a);
  }

  /** Between non-negative reals, comparing squares compares the reals. */
  lemma SqLeIff(a: real, b: real)
    requires 0.0 <= a && 0.0 <= b
    ensures Sq(a) <= Sq(b) <==> a <= b
  {
    if a < b {
      SqStrictMono(a, b);
    } else if b < a {
      SqStrictMono(b, a);
    }
  }

  /** A coordinate difference whose square reaches `Sq(s)` is at least `s` long. */
  lemma SqBound(a: real, s: real)
    requires s > 0.0 && Sq(a) >= Sq(s)
    ensures Abs(a) >= s
  {
    SqAbs(a);
    SqLeIff(s, Abs(a));
  }

  /** Two points that share an axis are apart by the sum of their
      coordinate differences, squared. */
  lemma OnAxisDistance(p: Point, q: Point)
    requires OnAxis(p, q)
    ensures SqDist(p, q) == Sq(Abs(p.x - q.x) + Abs(p.y - q.y))
  {
    SqAbs(p.x - q.x);
    SqAbs(p.y - q.y);
  }

  // ---------------------------------------------------------------------
  // Static stat tables
  // ---------------------------------------------------------------------

  /** The template a new tower copies. `attackSpeed` is the cooldown in ms. */
  datatype DeveloperConfig = DeveloperConfig(
    cost: int,
    damage: int,
    attackSpeed: int,
    range: int,
    targetBugTypes: seq<BugType>,
    level: int,
    isAOE: bool)

  /** The template a new bug copies. `speed` is in pixels per frame. */
  datatype BugConfig = BugConfig(
    hp: int,
    maxHp: int,
    speed: real,
    reward: int,
    isBoss: bool,
    armor: int)

  function DeveloperConfigOf(t: DeveloperType): (c: DeveloperConfig)
    ensures c.level == 1
    ensures c.isAOE <==> t == UIDesigner
    ensures SystemCrash in c.targetBugTypes <==> t == SecurityExpert
    ensures Typo in c.targetBugTypes
    ensures c.cost > 0 && c.damage > 0 && c.attackSpeed > 0 && c.range > 0
  {
    match t
    case JuniorDev =>
      DeveloperConfig(100, 15, 800, 120, [Typo], 1, false)
    case SeniorArchitect =>
      DeveloperConfig(250, 35, 1000, 180, [Typo, NullPointerException, MemoryLeak], 1, false)
    case UIDesigner =>
      DeveloperConfig(150, 10, 1200, 150, [Typo, NullPointerException], 1, true)
    case DataEngineer =>
      DeveloperConfig(300, 25, 500, 140, [Typo, NullPointerException, MemoryLeak], 1, false)
    case SecurityExpert =>
      DeveloperConfig(500, 80, 1500, 200, [Typo, NullPointerException, MemoryLeak, SystemCrash], 1, false)
  }

  function BugConfigOf(t: BugType): (c: BugConfig)
    ensures c.hp == c.maxHp && c.hp > 0
    ensures c.armor >= 0
    ensures c.speed > 0.0
    ensures c.reward > 0
    ensures c.isBoss <==> t == SystemCrash
  {
    match t
    case Typo => BugConfig(50, 50, 2.5, 15, false, 0)
    case NullPointerException => BugConfig(120, 120, 2.0, 30, false, 5)
    case MemoryLeak => BugConfig(300, 300, 1.2, 60, false, 10)
    case SystemCrash => BugConfig(1000, 1000, 0.8, 200, true, 25)
  }
}

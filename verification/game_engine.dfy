/**
  The game engine as a pure state machine: economy commands, the status
  machine, the wave scheduler and the fixed per-frame pipeline
  spawn -> move -> attack -> effects -> wave-completion check.

  The host's clock and timers are inputs: a frame carries the current time
  in ms, and the two kinds of deferred callbacks the engine schedules (the
  next-wave timer and a data engineer's deferred hit) are queued in the
  state and fire as explicit events.
 */
module GameEngine {
  import opened Types
  import opened Seqs
  import opened GameConfig
  import opened BugEntity
  import opened DeveloperEntity
  import opened SpawnQueue

  /** A shot's trace from a tower to the bug it hit; it only ages and expires. */
  datatype AttackEffect = AttackEffect(from: Point, to: Point, towerType: DeveloperType, duration: real)

  /** Lifetime of a shot trace, in ms. */
  const EffectDuration: real := 100.0
  /** Damage of a data engineer's deferred hit. */
  const DelayedHitDamage: int := 10
  /** Score earned per unit of bounty. */
  const ScorePerGold: int := 10

  /** `selectedTower` is the inspected tower's id; `waveTimers` counts the
      pending next-wave timers and `delayedHits` the bug ids of pending
      deferred hits, oldest first; `nextId` numbers new towers and bugs. */
  datatype EngineState = EngineState(
    gold: int,
    lives: int,
    score: int,
    currentLevel: int,
    currentWave: nat,
    status: GameStatus,
    bugs: seq<Bug>,
    towers: seq<Tower>,
    spots: seq<PlacementSpot>,
    effects: seq<AttackEffect>,
    waveConfig: Option<WaveConfig>,
    spawnQueue: seq<SpawnEntry>,
    spawnTimer: real,
    waveCompleted: bool,
    selectedType: Option<DeveloperType>,
    selectedTower: Option<nat>,
    lastTime: real,
    nextId: nat,
    waveTimers: nat,
    delayedHits: seq<nat>)

  // ---------------------------------------------------------------------
  // Invariant
  // ---------------------------------------------------------------------

  /** A bug on the board: well-formed, heading for the waypoint after the
      one its index names, on the segment toward it. */
  predicate BugOk(b: Bug) {
    WellFormed(b) && Tracking(b, Level1Path()) && OnAxis(b.pos, b.target)
  }

  predicate AllBugsOk(bugs: seq<Bug>) {
    forall i :: 0 <= i < |bugs| ==> BugOk(bugs[i])
  }

  predicate DistinctIds(towers: seq<Tower>) {
    forall i, j :: 0 <= i < j < |towers| ==> towers[i].id != towers[j].id
  }

  /** Every tower is well-formed and was numbered before `nextId`. */
  predicate TowersOk(towers: seq<Tower>, nextId: nat) {
    forall i :: 0 <= i < |towers| ==> WellFormedTower(towers[i]) && towers[i].id < nextId
  }

  /** What every reachable state satisfies: gold is never negative, every
      bug is on its path and every tower is well-formed with its own id. */
  predicate Inv(s: EngineState) {
    && s.gold >= 0
    && AllBugsOk(s.bugs)
    && TowersOk(s.towers, s.nextId)
    && DistinctIds(s.towers)
  }

  /** The invariant reads only gold, bugs, towers and the id counter. */
  lemma InvReads(s: EngineState, r: EngineState)
    requires r.gold == s.gold && r.bugs == s.bugs && r.towers == s.towers && r.nextId == s.nextId
    ensures Inv(s) <==> Inv(r)
  {
  }

  function Initial(): (s: EngineState)
    ensures Inv(s)
    ensures s.gold == InitialGold && s.lives == InitialLives && s.score == 0
    ensures s.currentLevel == 1 && s.currentWave == 0 && s.status == Idle
  {
    EngineState(InitialGold, InitialLives, 0, 1, 0, Idle, [], [], InitialSpots(), [],
                None, [], 0.0, false, None, None, 0.0, 0, 0, [])
  }

  // ---------------------------------------------------------------------
  // Economy commands
  // ---------------------------------------------------------------------

  /** Places a tower of type `dt` on spot `spot`. Only gold is checked:
      the spot may already be occupied. */
  function PlaceDeveloper(s: EngineState, dt: DeveloperType, spot: nat): (r: (EngineState, bool))
    requires spot < |s.spots|
    ensures r.1 <==> s.gold >= DeveloperConfigOf(dt).cost
    ensures !r.1 ==> r.0 == s
    ensures r.1 ==>
      var t := NewTower(s.nextId, dt, s.spots[spot].pos);
      && r.0.gold == s.gold - DeveloperConfigOf(dt).cost
      && r.0.towers == s.towers + [t]
      && r.0.spots == s.spots[spot := PlacementSpot(s.spots[spot].pos, true, Some(t.id))]
      && r.0 == s.(gold := r.0.gold, towers := r.0.towers, spots := r.0.spots,
                   selectedType := None, nextId := s.nextId + 1)
    ensures s.gold >= 0 ==> r.0.gold >= 0
  {
    var t := NewTower(s.nextId, dt, s.spots[spot].pos);
    if s.gold < t.cost then (s, false)
    else
      (s.(gold := s.gold - t.cost,
          towers := s.towers + [t],
          spots := s.spots[spot := s.spots[spot].(isOccupied := true, developerId := Some(t.id))],
          selectedType := None,
          nextId := s.nextId + 1), true)
  }

  /** The first spot that names tower `id`, as `Array.find` returns it. */
  function SpotOf(spots: seq<PlacementSpot>, id: nat): Option<nat> {
    FindFirst(spots, Names(id))
  }

  function Names(id: nat): PlacementSpot -> bool {
    (p: PlacementSpot) => p.developerId == Some(id)
  }


  function Without(id: nat): Tower -> bool {
    (t: Tower) => t.id != id
  }

  /** Sells the tower at index `i`: credits its sell price, frees the first
      spot naming it, removes every tower with its id and clears the
      inspection selection. */
  function SellDeveloper(s: EngineState, i: nat): (r: EngineState)
    requires i < |s.towers|
    ensures var t := s.towers[i];
      && r.gold == s.gold + SellPrice(t)
      && (forall k :: 0 <= k < |r.towers| ==> r.towers[k].id != t.id)
      && (forall x :: x in r.towers <==> x in s.towers && x.id != t.id)
      && r.towers == Filter(s.towers, Without(t.id))
      && (match SpotOf(s.spots, t.id)
          case None => r.spots == s.spots
          case Some(k) => r.spots == s.spots[k := PlacementSpot(s.spots[k].pos, false, None)])
      && r == s.(gold := r.gold, towers := r.towers, spots := r.spots, selectedTower := None)
  {
    var t := s.towers[i];
    var spots := match SpotOf(s.spots, t.id)
                 case None => s.spots
                 case Some(k) => s.spots[k := s.spots[k].(isOccupied := false, developerId := None)];
    s.(gold := s.gold + SellPrice(t),
       spots := spots,
       towers := Filter(s.towers, Without(t.id)),
       selectedTower := None)
  }

  /** With distinct ids, removing by id removes exactly the sold tower and
      keeps the others in order. */
  lemma RemoveById(towers: seq<Tower>, i: nat)
    requires i < |towers| && DistinctIds(towers)
    ensures Filter(towers, Without(towers[i].id)) == towers[..i] + towers[i + 1..]
  {
    var keep := Without(towers[i].id);
    var a, b := towers[..i], towers[i + 1..];
    assert towers == a + [towers[i]] + b;
    forall k | 0 <= k < |a|
      ensures keep(a[k])
    {
      assert a[k] == towers[k];
    }
    forall k | 0 <= k < |b|
      ensures keep(b[k])
    {
      assert b[k] == towers[i + 1 + k];
    }
    FilterDropsOne(a, towers[i], b, keep);
  }

  /** The sell price of a well-formed tower is never negative. */
  lemma SellPriceNonNeg(t: Tower)
    requires WellFormedTower(t)
    ensures SellPrice(t) >= 0
  {
    assert (t.level - 1) * t.cost >= 0;
  }

  /** Selling a tower leaves every other tower where it was and removes
      exactly one; gold rises by the (non-negative) sell price. */
  lemma SellRemovesExactlyOne(s: EngineState, i: nat)
    requires i < |s.towers| && Inv(s)
    ensures SellDeveloper(s, i).towers == s.towers[..i] + s.towers[i + 1..]
    ensures |SellDeveloper(s, i).towers| == |s.towers| - 1
    ensures SellDeveloper(s, i).gold >= s.gold
  {
    RemoveById(s.towers, i);
    SellPriceNonNeg(s.towers[i]);
  }

  /** Upgrades the tower at index `i`. The gold check comes first; the cost
      is the one at the tower's level before the upgrade. */
  function UpgradeDeveloper(s: EngineState, i: nat): (r: (EngineState, bool))
    requires i < |s.towers|
    ensures r.1 <==> s.gold >= UpgradeCost(s.towers[i]) && s.towers[i].level < MaxLevel
    ensures !r.1 ==> r.0 == s
    ensures r.1 ==>
      && r.0.gold == s.gold - UpgradeCost(s.towers[i])
      && r.0.towers == s.towers[i := Upgrade(s.towers[i]).0]
      && r.0.towers[i].level == s.towers[i].level + 1
      && r.0 == s.(gold := r.0.gold, towers := r.0.towers)
    ensures s.gold >= 0 ==> r.0.gold >= 0
  {
    var t := s.towers[i];
    var cost := UpgradeCost(t);
    if s.gold < cost then (s, false)
    else
      var u := Upgrade(t);
      if u.1 then (s.(gold := s.gold - cost, towers := s.towers[i := u.0]), true)
      else (s, false)
  }

  /** Picking (or clearing, with `None`) the type to place next touches
      nothing but the pending choice. */
  function SelectDeveloperType(s: EngineState, choice: Option<DeveloperType>): (r: EngineState)
    ensures r.selectedType == choice
    ensures r == s.(selectedType := r.selectedType)
    ensures Inv(r) <==> Inv(s)
  {
    s.(selectedType := choice)
  }

  /** A click that does not place: `hit` is the first tower the host's
      hit test finds under the pointer. That tower becomes the inspected
      one; a click on no tower clears the inspection. */
  function SelectTower(s: EngineState, hit: Option<nat>): (r: EngineState)
    requires hit.Some? ==> hit.value < |s.towers|
    ensures r.selectedTower.Some? <==> hit.Some?
    ensures hit.Some? ==> r.selectedTower == Some(s.towers[hit.value].id)
    ensures r == s.(selectedTower := r.selectedTower)
    ensures Inv(r) <==> Inv(s)
  {
    match hit
    case None => s.(selectedTower := None)
    case Some(i) => s.(selectedTower := Some(s.towers[i].id))
  }

  /** Selling the inspected tower clears the inspection and leaves no
      tower with the id that was inspected. */
  lemma SellSelected(s: EngineState, i: nat)
    requires i < |s.towers|
    ensures var r := SellDeveloper(SelectTower(s, Some(i)), i);
      && r.selectedTower == None
      && forall k :: 0 <= k < |r.towers| ==> Some(r.towers[k].id) != SelectTower(s, Some(i)).selectedTower
  {
  }

  // ---------------------------------------------------------------------
  // Status machine and waves
  // ---------------------------------------------------------------------

  /** Advances the wave counter, then either declares victory (no wave left)
      or loads the wave: its spawn queue, group after group, with a fresh
      timer. A missing level leaves everything as it is. */
  function StartNextWave(s: EngineState): (r: EngineState)
    ensures var lvl := FindLevel(LevelConfigs(), s.currentLevel);
      && (lvl.None? ==> r == s)
      && (lvl.Some? ==> r.currentWave == s.currentWave + 1)
      && (lvl.Some? && s.currentWave >= |lvl.value.waves| ==>
            r == s.(currentWave := s.currentWave + 1, status := Victory))
      && (lvl.Some? && s.currentWave < |lvl.value.waves| ==>
            var w := lvl.value.waves[s.currentWave];
            && |r.spawnQueue| == TotalCount(w.groups)
            && r == s.(currentWave := s.currentWave + 1, waveConfig := Some(w), waveCompleted := false,
                       spawnQueue := BuildQueue(w.groups), spawnTimer := 0.0))
  {
    match FindLevel(LevelConfigs(), s.currentLevel)
    case None => s
    case Some(lvl) =>
      var wave := s.currentWave + 1;
      if wave - 1 >= |lvl.waves| then s.(currentWave := wave, status := Victory)
      else
        var w := lvl.waves[wave - 1];
        s.(currentWave := wave, waveConfig := Some(w), waveCompleted := false,
           spawnQueue := BuildQueue(w.groups), spawnTimer := 0.0)
  }

  /** Enters `Playing` from any other status (a finished run included); the
      first wave is loaded only when none has started yet. */
  function Start(s: EngineState, now: real): (r: EngineState)
    ensures s.status == Playing ==> r == s
    ensures s.status != Playing && s.currentWave != 0 ==> r == s.(status := Playing, lastTime := now)
    ensures s.status != Playing && s.currentWave == 0 ==>
      r == StartNextWave(s.(status := Playing)).(lastTime := now)
  {
    if s.status == Playing then s
    else
      var playing := s.(status := Playing);
      var loaded := if s.currentWave == 0 then StartNextWave(playing) else playing;
      loaded.(lastTime := now)
  }

  function Pause(s: EngineState): (r: EngineState)
    ensures r.status == Paused
    ensures r == s.(status := Paused)
  {
    s.(status := Paused)
  }

  /** Acts only from `Paused`; the clock restarts at `now`. */
  function Resume(s: EngineState, now: real): (r: EngineState)
    ensures s.status != Paused ==> r == s
    ensures s.status == Paused ==> r.status == Playing && r == s.(status := Playing, lastTime := now)
  {
    if s.status != Paused then s
    else s.(status := Playing, lastTime := now)
  }

  /** A pause followed by a resume changes nothing but the status and the
      clock, whatever the status was. */
  lemma PauseThenResume(s: EngineState, now: real)
    ensures Resume(Pause(s), now) == s.(status := Playing, lastTime := now)
  {
  }

  /** Back to the initial run values, keeping the level, the id counter,
      the wave flag and timer, the clock and the host's pending timers. */
  function Reset(s: EngineState): (r: EngineState)
    ensures r.gold == InitialGold && r.lives == InitialLives && r.score == 0
    ensures r.currentWave == 0 && r.status == Idle
    ensures r.bugs == [] && r.towers == [] && r.effects == [] && r.spawnQueue == []
    ensures forall i :: 0 <= i < |r.spots| ==> !r.spots[i].isOccupied && r.spots[i].developerId == None
    ensures |r.spots| == 15
    ensures r.currentLevel == s.currentLevel && r.nextId == s.nextId
    ensures r.waveTimers == s.waveTimers && r.delayedHits == s.delayedHits
  {
    s.(gold := InitialGold, lives := InitialLives, score := 0, currentWave := 0, status := Idle,
       bugs := [], towers := [], spots := InitialSpots(), effects := [], spawnQueue := [],
       waveConfig := None, selectedType := None, selectedTower := None)
  }

  /** A reset state is the initial state except for what reset leaves alone. */
  lemma ResetIsInitial(s: EngineState)
    ensures Reset(s) == Initial().(currentLevel := s.currentLevel, spawnTimer := s.spawnTimer,
                                   waveCompleted := s.waveCompleted, lastTime := s.lastTime,
                                   nextId := s.nextId, waveTimers := s.waveTimers,
                                   delayedHits := s.delayedHits)
  {
  }

  // ---------------------------------------------------------------------
  // One frame: spawning
  // ---------------------------------------------------------------------

  /** New bugs for the spawned entries, numbered from `firstId`. */
  function SpawnBugs(entries: seq<SpawnEntry>, firstId: nat): (r: seq<Bug>)
    ensures |r| == |entries|
    ensures forall k :: 0 <= k < |r| ==> r[k] == NewBug(firstId + k, entries[k].bugType, Level1Path())
  {
    if |entries| == 0 then []
    else [NewBug(firstId, entries[0].bugType, Level1Path())] + SpawnBugs(entries[1..], firstId + 1)
  }

  /** Advances the spawn timer by the frame and spawns the longest prefix of
      the queue that is due; with an empty queue even the timer stands still. */
  function UpdateSpawning(s: EngineState, dt: real): (r: EngineState)
    ensures |s.spawnQueue| == 0 ==> r == s
    ensures |s.spawnQueue| > 0 ==>
      && r.spawnTimer == s.spawnTimer + dt * 1000.0
      && var d := SpawnDue(s.bugs, s.spawnQueue, r.spawnTimer, s.nextId);
         r == s.(spawnTimer := r.spawnTimer, spawnQueue := d.queue, bugs := d.bugs, nextId := s.nextId + d.count)
    ensures AllBugsOk(s.bugs) ==> AllBugsOk(r.bugs)
    ensures AllMovable(s.bugs) ==> AllMovable(r.bugs)
  {
    if |s.spawnQueue| == 0 then s
    else
      var timer := s.spawnTimer + dt * 1000.0;
      var d := SpawnDue(s.bugs, s.spawnQueue, timer, s.nextId);
      s.(spawnTimer := timer, spawnQueue := d.queue, bugs := d.bugs, nextId := s.nextId + d.count)
  }

  /** The board and queue after spawning, and how many bugs were spawned. */
  datatype Spawned = Spawned(bugs: seq<Bug>, queue: seq<SpawnEntry>, count: nat)

  /** Spawning on the board's and queue's own terms: the due prefix of the
      queue, and nothing after the first entry not yet due, joins the board. */
  function SpawnDue(bugs: seq<Bug>, queue: seq<SpawnEntry>, timer: real, firstId: nat): (r: Spawned)
    ensures r.count <= |queue| && |r.bugs| == |bugs| + r.count
    ensures r.bugs[..|bugs|] == bugs
    ensures queue == queue[..r.count] + r.queue
    ensures forall k :: 0 <= k < r.count ==>
      && queue[k].delay as real <= timer
      && r.bugs[|bugs| + k] == NewBug(firstId + k, queue[k].bugType, Level1Path())
    ensures |r.queue| == 0 || r.queue[0].delay as real > timer
    ensures AllBugsOk(bugs) ==> AllBugsOk(r.bugs)
    ensures AllMovable(bugs) ==> AllMovable(r.bugs)
  {
    var d := Drain(queue, timer);
    var spawned := SpawnBugs(d.0, firstId);
    assert queue[..|d.0|] == d.0;
    AppendSpawned(bugs, d.0, firstId);
    SpawnedOk(d.0, firstId);
    AppendOk(bugs, spawned);
    Spawned(bugs + spawned, d.1, |d.0|)
  }


  lemma AppendSpawned(bugs: seq<Bug>, entries: seq<SpawnEntry>, firstId: nat)
    ensures var r := bugs + SpawnBugs(entries, firstId);
      && |r| == |bugs| + |entries|
      && r[..|bugs|] == bugs
      && forall k :: 0 <= k < |entries| ==>
           r[|bugs| + k] == NewBug(firstId + k, entries[k].bugType, Level1Path())
  {
    var r := bugs + SpawnBugs(entries, firstId);
    assert r[..|bugs|] == bugs;
  }

  /** Freshly spawned bugs stand on the first waypoint, heading for the second. */
  lemma SpawnedOk(entries: seq<SpawnEntry>, firstId: nat)
    ensures AllBugsOk(SpawnBugs(entries, firstId)) && AllMovable(SpawnBugs(entries, firstId))
  {
    var bugs := SpawnBugs(entries, firstId);
    forall k | 0 <= k < |bugs|
      ensures BugOk(bugs[k]) && Movable(bugs[k])
    {
      assert bugs[k] == NewBug(firstId + k, entries[k].bugType, Level1Path());
    }
  }

  lemma AppendOk(a: seq<Bug>, b: seq<Bug>)
    ensures AllBugsOk(a) && AllBugsOk(b) ==> AllBugsOk(a + b)
    ensures AllMovable(a) && AllMovable(b) ==> AllMovable(a + b)
  {
    assert forall k :: 0 <= k < |a + b| ==> (a + b)[k] == if k < |a| then a[k] else b[k - |a|];
  }

  // ---------------------------------------------------------------------
  // One frame: movement, breaches and defeat
  // ---------------------------------------------------------------------

  predicate Movable(b: Bug) {
    b.speed > 0.0 && b.slowFactor > 0.0
  }

  predicate AllMovable(bugs: seq<Bug>) {
    forall i :: 0 <= i < |bugs| ==> Movable(bugs[i])
  }

  /** One bug's frame inside the movement pass: a bug that reaches the end
      of the path is marked dead and reported. */
  function Advance(b: Bug, frames: real): (r: (Bug, bool))
    requires frames > 0.0 && Movable(b)
    ensures r.1 <==> Update(b, Level1Path(), frames).1
    ensures r.1 ==> !r.0.isAlive
    ensures !r.1 ==> r.0 == Update(b, Level1Path(), frames).0
    ensures r.0.id == b.id && r.0.reward == b.reward
  {
    var u := Update(b, Level1Path(), frames);
    if u.1 then (u.0.(isAlive := false), true) else u
  }

  /** How many bugs reach the end of the path in this frame. */
  function Breaches(bugs: seq<Bug>, frames: real): nat
    requires frames > 0.0 && AllMovable(bugs)
  {
    if |bugs| == 0 then 0
    else (if Advance(bugs[0], frames).1 then 1 else 0) + Breaches(bugs[1..], frames)
  }

  datatype BugPass = BugPass(bugs: seq<Bug>, lives: int, status: GameStatus)

  /** The movement loop: each breach costs a life at once, and a breach
      that leaves no life declares defeat; later bugs still move. */
  function MoveBugs(bugs: seq<Bug>, frames: real, lives: int, status: GameStatus): (r: BugPass)
    requires frames > 0.0 && AllMovable(bugs)
    ensures |r.bugs| == |bugs|
    ensures forall i :: 0 <= i < |bugs| ==> r.bugs[i] == Advance(bugs[i], frames).0
    ensures r.lives == lives - Breaches(bugs, frames)
    ensures r.status == if Breaches(bugs, frames) > 0 && r.lives <= 0 then Defeat else status
  {
    if |bugs| == 0 then BugPass([], lives, status)
    else
      var a := Advance(bugs[0], frames);
      var lives1 := if a.1 then lives - 1 else lives;
      var status1 := if a.1 && lives1 <= 0 then Defeat else status;
      var rest := MoveBugs(bugs[1..], frames, lives1, status1);
      BugPass([a.0] + rest.bugs, rest.lives, rest.status)
  }

  function Alive(): Bug -> bool {
    (b: Bug) => b.isAlive
  }

  /** Moves every bug by `dt * 60` frame units, charges the breaches against
      the lives (with no floor) and drops the dead bugs. */
  function UpdateBugs(s: EngineState, dt: real): (r: EngineState)
    requires dt > 0.0 && AllMovable(s.bugs)
    ensures var frames := dt * 60.0;
      && r.lives == s.lives - Breaches(s.bugs, frames)
      && r.status == (if Breaches(s.bugs, frames) > 0 && r.lives <= 0 then Defeat else s.status)
      && (forall x :: x in r.bugs <==> x.isAlive && x in MoveBugs(s.bugs, frames, s.lives, s.status).bugs)
    ensures forall i :: 0 <= i < |r.bugs| ==> r.bugs[i].isAlive
    ensures r == s.(bugs := r.bugs, lives := r.lives, status := r.status)
  {
    var p := MoveBugs(s.bugs, dt * 60.0, s.lives, s.status);
    s.(bugs := Filter(p.bugs, Alive()), lives := p.lives, status := p.status)
  }

  /** A bug still on the board after its frame is still on its path. */
  lemma AdvanceKeepsOk(b: Bug, frames: real)
    requires frames > 0.0 && BugOk(b)
    requires Advance(b, frames).0.isAlive
    ensures BugOk(Advance(b, frames).0)
  {
    if b.isAlive {
      UpdateFollowsPath(b, Level1Path(), frames);
    }
  }

  lemma UpdateBugsKeepsOk(s: EngineState, dt: real)
    requires dt > 0.0 && AllBugsOk(s.bugs)
    ensures AllMovable(s.bugs) && AllBugsOk(UpdateBugs(s, dt).bugs)
  {
    OkIsMovable(s.bugs);
    var frames := dt * 60.0;
    var p := MoveBugs(s.bugs, frames, s.lives, s.status);
    assert UpdateBugs(s, dt).bugs == Filter(p.bugs, Alive());
    SurvivorsOk(s.bugs, frames, s.lives, s.status);
  }

  lemma SurvivorsOk(bugs: seq<Bug>, frames: real, lives: int, status: GameStatus)
    requires frames > 0.0 && AllBugsOk(bugs) && AllMovable(bugs)
    ensures AllBugsOk(Filter(MoveBugs(bugs, frames, lives, status).bugs, Alive()))
  {
    var moved := MoveBugs(bugs, frames, lives, status).bugs;
    var r := Filter(moved, Alive());
    forall k | 0 <= k < |r|
      ensures BugOk(r[k])
    {
      assert r[k] in moved && Alive()(r[k]);
      var i :| 0 <= i < |moved| && moved[i] == r[k];
      assert BugOk(bugs[i]);
      AdvanceKeepsOk(bugs[i], frames);
    }
  }


  // ---------------------------------------------------------------------
  // One frame: attacks and bounties
  // ---------------------------------------------------------------------

  /** A tower that has only been re-timed or re-targeted by an attack. */
  predicate Retimed(t: Tower, u: Tower) {
    u == t.(lastAttackTime := u.lastAttackTime, currentTarget := u.currentTarget)
  }

  /** The trace a single-target shot leaves; area attacks leave none. */
  function EffectOf(t: Tower, a: AttackResult): seq<AttackEffect> {
    if a.target.Some? then [AttackEffect(t.pos, a.target.value.pos, t.devType, EffectDuration)] else []
  }

  function HitOf(a: AttackResult): seq<nat> {
    if a.delayedHit.Some? then [a.delayedHit.value] else []
  }

  datatype TowerPass = TowerPass(
    towers: seq<Tower>,
    bugs: seq<Bug>,
    effects: seq<AttackEffect>,
    killed: seq<Bug>,
    delayedHits: seq<nat>)

  /** Every tower attacks once, in list order, each seeing the bugs as the
      towers before it left them. The killed list pays for exactly the bugs
      that died during the pass. */
  function AttackAll(towers: seq<Tower>, now: real, bugs: seq<Bug>): (r: TowerPass)
    ensures |r.towers| == |towers|
    ensures forall i :: 0 <= i < |towers| ==> Retimed(towers[i], r.towers[i])
    ensures SameBugs(bugs, r.bugs)
    ensures SumRewards(r.killed) == Bounty(bugs, r.bugs)
    ensures |r.effects| <= |towers| && |r.delayedHits| <= |towers|
  {
    if |towers| == 0 then
      DiedUnchanged(bugs);
      TowerPass([], bugs, [], [], [])
    else
      var a := Attack(towers[0], now, bugs);
      var rest := AttackAll(towers[1..], now, a.bugs);
      BountyAdditive(bugs, a.bugs, rest.bugs);
      SumRewardsAppend(a.killed, rest.killed);
      TowerPass([a.tower] + rest.towers, rest.bugs, EffectOf(towers[0], a) + rest.effects,
                a.killed + rest.killed, HitOf(a) + rest.delayedHits)
  }

  /** A pass of one tower is that tower's attack: its re-timed self, the
      bugs it leaves, its kills, the trace of a single-target shot at the
      target's position, and its delayed hit if it scheduled one. */
  lemma AttackAllOne(t: Tower, now: real, bugs: seq<Bug>)
    ensures var a := Attack(t, now, bugs);
      var p := AttackAll([t], now, bugs);
      && p.towers == [a.tower] && p.bugs == a.bugs && p.killed == a.killed
      && p.effects == (if Fires(t, now, bugs) && !t.isAOE
                       then [AttackEffect(t.pos, bugs[FindTarget(t, bugs).value].pos, t.devType, EffectDuration)]
                       else [])
      && p.delayedHits == (if a.delayedHit.Some? then [a.delayedHit.value] else [])
  {
  }

  /** A pass over two runs of towers is the second run attacking the bugs
      the first run left, with towers, traces, kills and delayed hits
      listed in tower order. */
  lemma {:induction false} AttackAllAppend(ts1: seq<Tower>, ts2: seq<Tower>, now: real, bugs: seq<Bug>)
    ensures var p1 := AttackAll(ts1, now, bugs);
      var p2 := AttackAll(ts2, now, p1.bugs);
      AttackAll(ts1 + ts2, now, bugs)
        == TowerPass(p1.towers + p2.towers, p2.bugs, p1.effects + p2.effects,
                     p1.killed + p2.killed, p1.delayedHits + p2.delayedHits)
  {
    if |ts1| == 0 {
      assert ts1 + ts2 == ts2;
      var p2 := AttackAll(ts2, now, bugs);
      assert [] + p2.towers == p2.towers && [] + p2.effects == p2.effects;
      assert [] + p2.killed == p2.killed && [] + p2.delayedHits == p2.delayedHits;
    } else {
      var ts := ts1 + ts2;
      assert ts[0] == ts1[0];
      assert ts[1..] == ts1[1..] + ts2;
      var a := Attack(ts1[0], now, bugs);
      AttackAllCons(ts, now, bugs);
      AttackAllCons(ts1, now, bugs);
      AttackAllAppend(ts1[1..], ts2, now, a.bugs);
      var q1 := AttackAll(ts1[1..], now, a.bugs);
      var p2 := AttackAll(ts2, now, q1.bugs);
      ConsAssoc([a.tower], q1.towers, p2.towers);
      ConsAssoc(EffectOf(ts1[0], a), q1.effects, p2.effects);
      ConsAssoc(a.killed, q1.killed, p2.killed);
      ConsAssoc(HitOf(a), q1.delayedHits, p2.delayedHits);
    }
  }

  /** The pass, one tower at a time. */
  lemma AttackAllCons(towers: seq<Tower>, now: real, bugs: seq<Bug>)
    requires |towers| > 0
    ensures var a := Attack(towers[0], now, bugs);
      var rest := AttackAll(towers[1..], now, a.bugs);
      AttackAll(towers, now, bugs)
        == TowerPass([a.tower] + rest.towers, rest.bugs, EffectOf(towers[0], a) + rest.effects,
                     a.killed + rest.killed, HitOf(a) + rest.delayedHits)
  {
  }

  lemma ConsAssoc<T>(a: seq<T>, b: seq<T>, c: seq<T>)
    ensures a + (b + c) == (a + b) + c
  {
  }

  /** An area hit changes health, life and slow only, so a bug stays on its path. */
  lemma SplashHitKeepsOk(b: Bug, center: Point, damage: int, slows: bool)
    requires BugOk(b)
    ensures BugOk(SplashHit(b, center, damage, slows))
  {
  }

  lemma AttackKeepsOk(t: Tower, now: real, bugs: seq<Bug>)
    requires AllBugsOk(bugs)
    ensures AllBugsOk(Attack(t, now, bugs).bugs)
  {
    var r := Attack(t, now, bugs);
    if Fires(t, now, bugs) && t.isAOE {
      var center := bugs[FindTarget(t, bugs).value].pos;
      forall i | 0 <= i < |bugs|
        ensures BugOk(r.bugs[i])
      {
        SplashHitKeepsOk(bugs[i], center, t.damage, t.devType == UIDesigner);
      }
    }
  }

  lemma {:induction false} AttackAllKeepsOk(towers: seq<Tower>, now: real, bugs: seq<Bug>)
    requires AllBugsOk(bugs)
    ensures AllBugsOk(AttackAll(towers, now, bugs).bugs)
  {
    if |towers| > 0 {
      AttackKeepsOk(towers[0], now, bugs);
      AttackAllKeepsOk(towers[1..], now, Attack(towers[0], now, bugs).bugs);
    }
  }

  /** Each bug killed during the pass pays its reward in gold and ten times
      that in score, exactly once. */
  function UpdateDevelopers(s: EngineState, now: real): (r: EngineState)
    ensures SameBugs(s.bugs, r.bugs)
    ensures r.gold == s.gold + Bounty(s.bugs, r.bugs)
    ensures r.score == s.score + ScorePerGold * Bounty(s.bugs, r.bugs)
    ensures |r.towers| == |s.towers| && forall i :: 0 <= i < |s.towers| ==> Retimed(s.towers[i], r.towers[i])
    ensures |s.effects| <= |r.effects| && r.effects[..|s.effects|] == s.effects
    ensures s.delayedHits <= r.delayedHits
    // the pass's towers, bugs, traces and delayed hits, the new ones after the old
    ensures var p := AttackAll(s.towers, now, s.bugs);
      && r.towers == p.towers && r.bugs == p.bugs
      && r.effects == s.effects + p.effects && r.delayedHits == s.delayedHits + p.delayedHits
    ensures r == s.(towers := r.towers, bugs := r.bugs, effects := r.effects, gold := r.gold,
                    score := r.score, delayedHits := r.delayedHits)
  {
    var p := AttackAll(s.towers, now, s.bugs);
    var bounty := SumRewards(p.killed);
    assert (s.effects + p.effects)[..|s.effects|] == s.effects;
    s.(towers := p.towers, bugs := p.bugs, effects := s.effects + p.effects,
       gold := s.gold + bounty, score := s.score + ScorePerGold * bounty,
       delayedHits := s.delayedHits + p.delayedHits)
  }

  // ---------------------------------------------------------------------
  // One frame: effects and wave completion
  // ---------------------------------------------------------------------

  function Age(effects: seq<AttackEffect>, ms: real): (r: seq<AttackEffect>)
    ensures |r| == |effects|
    ensures forall i :: 0 <= i < |r| ==> r[i] == effects[i].(duration := effects[i].duration - ms)
  {
    if |effects| == 0 then []
    else [effects[0].(duration := effects[0].duration - ms)] + Age(effects[1..], ms)
  }

  function Active(): AttackEffect -> bool {
    (e: AttackEffect) => e.duration > 0.0
  }

  /** A trace is in the aged list exactly when its younger self was in the old one. */
  lemma AgedMember(effects: seq<AttackEffect>, ms: real, e: AttackEffect)
    ensures e in Age(effects, ms) <==> e.(duration := e.duration + ms) in effects
  {
    var aged := Age(effects, ms);
    var young := e.(duration := e.duration + ms);
    if e in aged {
      var i :| 0 <= i < |aged| && aged[i] == e;
      assert effects[i] == young;
    }
    if young in effects {
      var i :| 0 <= i < |effects| && effects[i] == young;
      assert aged[i] == e;
    }
  }

  /** Every trace ages by `ms`; the expired ones are dropped. */
  function Expire(effects: seq<AttackEffect>, ms: real): (r: seq<AttackEffect>)
    ensures forall i :: 0 <= i < |r| ==> r[i].duration > 0.0
    ensures forall e :: e in r <==> e.duration > 0.0 && e.(duration := e.duration + ms) in effects
  {
    var kept := Filter(Age(effects, ms), Active());
    assert forall e :: e in kept <==> e.duration > 0.0 && e.(duration := e.duration + ms) in effects by {
      forall e
        ensures e in kept <==> e.duration > 0.0 && e.(duration := e.duration + ms) in effects
      {
        AgedMember(effects, ms, e);
      }
    }
    kept
  }

  /** The frame's effect pass, on the frame time in seconds. */
  function UpdateAttackEffects(s: EngineState, dt: real): (r: EngineState)
    ensures forall i :: 0 <= i < |r.effects| ==> r.effects[i].duration > 0.0
    ensures forall e :: e in r.effects <==>
      e.duration > 0.0 && e.(duration := e.duration + dt * 1000.0) in s.effects
    ensures r == s.(effects := r.effects)
  {
    s.(effects := Expire(s.effects, dt * 1000.0))
  }

  /** Marks the wave complete, once, when nothing is left to spawn and no
      bug (live or dead) is left on the board, and schedules the next-wave timer. */
  function CheckWaveComplete(s: EngineState): (r: EngineState)
    ensures r.waveCompleted <==> s.waveCompleted || (|s.spawnQueue| == 0 && |s.bugs| == 0)
    ensures r.waveTimers == s.waveTimers + (if r.waveCompleted && !s.waveCompleted then 1 else 0)
    ensures r == s.(waveCompleted := r.waveCompleted, waveTimers := r.waveTimers)
  {
    if s.waveCompleted || |s.spawnQueue| > 0 || |s.bugs| > 0 then s
    else s.(waveCompleted := true, waveTimers := s.waveTimers + 1)
  }

  /** The completion check schedules at most one timer per wave. */
  lemma WaveCompletesOnce(s: EngineState)
    ensures CheckWaveComplete(CheckWaveComplete(s)) == CheckWaveComplete(s)
    ensures CheckWaveComplete(s).waveTimers <= s.waveTimers + 1
  {
  }

  // ---------------------------------------------------------------------
  // The frame
  // ---------------------------------------------------------------------

  /** The fixed pipeline of one frame of `dt` seconds at time `now`. */
  function Tick(s: EngineState, dt: real, now: real): (r: EngineState)
    requires dt > 0.0 && AllMovable(s.bugs)
    ensures Inv(s) ==> Inv(r) && r.score >= s.score
    ensures r.currentWave == s.currentWave && r.currentLevel == s.currentLevel
    // the spawn clock runs exactly while something is queued
    ensures r.spawnTimer == if |s.spawnQueue| > 0 then s.spawnTimer + dt * 1000.0 else s.spawnTimer
    // lives only fall, and a frame can only end the game in defeat
    ensures r.lives <= s.lives && (r.status == s.status || r.status == Defeat)
    ensures r.lastTime == s.lastTime
  {
    StagesKeepInv(s, dt, now);
    TickFields(s, dt, now);
    var s3 := UpdateDevelopers(UpdateBugs(UpdateSpawning(s, dt), dt), now);
    FinishKeepsInv(s3, dt);
    CheckWaveComplete(UpdateAttackEffects(s3, dt))
  }

  /** What the stages of a frame do to the clocks, lives and status. */
  lemma TickFields(s: EngineState, dt: real, now: real)
    requires dt > 0.0 && AllMovable(s.bugs)
    ensures var r := CheckWaveComplete(UpdateAttackEffects(UpdateDevelopers(UpdateBugs(UpdateSpawning(s, dt), dt), now), dt));
      && r.spawnTimer == (if |s.spawnQueue| > 0 then s.spawnTimer + dt * 1000.0 else s.spawnTimer)
      && r.lives <= s.lives && (r.status == s.status || r.status == Defeat)
      && r.lastTime == s.lastTime
  {
    var s1 := UpdateSpawning(s, dt);
    assert s1.lives == s.lives && s1.status == s.status && s1.lastTime == s.lastTime;
    var s2 := UpdateBugs(s1, dt);
    assert s2.spawnTimer == s1.spawnTimer && s2.lastTime == s1.lastTime;
    var s3 := UpdateDevelopers(s2, now);
    var s4 := UpdateAttackEffects(s3, dt);
    var r := CheckWaveComplete(s4);
    assert r.spawnTimer == s2.spawnTimer && r.lives == s2.lives && r.status == s2.status && r.lastTime == s2.lastTime;
  }

  /** Spawning, movement and attacks keep the invariant, never lower the
      score, and leave the wave and level alone. */
  lemma StagesKeepInv(s: EngineState, dt: real, now: real)
    requires dt > 0.0 && AllMovable(s.bugs)
    ensures AllMovable(UpdateSpawning(s, dt).bugs)
    ensures var s3 := UpdateDevelopers(UpdateBugs(UpdateSpawning(s, dt), dt), now);
      && (Inv(s) ==> Inv(s3) && s3.score >= s.score)
      && s3.currentWave == s.currentWave && s3.currentLevel == s.currentLevel
  {
    var s1 := UpdateSpawning(s, dt);
    if Inv(s) {
      SpawningKeepsInv(s, dt);
      BugsKeepInv(s1, dt);
      DevelopersKeepInv(UpdateBugs(s1, dt), now);
    }
  }

  /** Aging effects and checking for wave completion touch neither the
      invariant's fields nor the score, wave or level. */
  lemma FinishKeepsInv(s: EngineState, dt: real)
    ensures var r := CheckWaveComplete(UpdateAttackEffects(s, dt));
      && (Inv(s) ==> Inv(r))
      && r.score == s.score && r.currentWave == s.currentWave && r.currentLevel == s.currentLevel
  {
    var s1 := UpdateAttackEffects(s, dt);
    InvReads(s, s1);
    InvReads(s1, CheckWaveComplete(s1));
  }

  lemma OkIsMovable(bugs: seq<Bug>)
    requires AllBugsOk(bugs)
    ensures AllMovable(bugs)
  {
    forall i | 0 <= i < |bugs|
      ensures Movable(bugs[i])
    {
      assert BugOk(bugs[i]);
    }
  }

  lemma SpawningKeepsInv(s: EngineState, dt: real)
    requires Inv(s)
    ensures Inv(UpdateSpawning(s, dt))
  {
  }

  lemma BugsKeepInv(s: EngineState, dt: real)
    requires Inv(s) && dt > 0.0
    ensures AllMovable(s.bugs)
    ensures Inv(UpdateBugs(s, dt))
  {
    OkIsMovable(s.bugs);
    UpdateBugsKeepsOk(s, dt);
  }

  lemma DevelopersKeepInv(s: EngineState, now: real)
    requires Inv(s)
    ensures Inv(UpdateDevelopers(s, now))
    ensures UpdateDevelopers(s, now).score >= s.score
  {
    var r := UpdateDevelopers(s, now);
    AttackAllKeepsOk(s.towers, now, s.bugs);
    assert r.bugs == AttackAll(s.towers, now, s.bugs).bugs;
    OkRewards(s.bugs);
    BountyNonNeg(s.bugs, r.bugs);
    RetimedKeepsTowers(s.towers, r.towers, s.nextId);
    assert r.gold >= 0 && r.nextId == s.nextId;
  }

  lemma OkRewards(bugs: seq<Bug>)
    requires AllBugsOk(bugs)
    ensures forall i :: 0 <= i < |bugs| ==> bugs[i].reward >= 0
  {
    forall i | 0 <= i < |bugs|
      ensures bugs[i].reward >= 0
    {
      assert BugOk(bugs[i]);
    }
  }

  /** Re-timing towers changes neither their stats nor their ids. */
  lemma RetimedKeepsTowers(ts: seq<Tower>, us: seq<Tower>, nextId: nat)
    requires |ts| == |us| && forall i :: 0 <= i < |ts| ==> Retimed(ts[i], us[i])
    requires TowersOk(ts, nextId) && DistinctIds(ts)
    ensures TowersOk(us, nextId) && DistinctIds(us)
  {
    assert forall i :: 0 <= i < |ts| ==> us[i].id == ts[i].id && WellFormedTower(us[i]);
  }

  /** The animation-frame callback: it acts only while `Playing`; the frame
      length is the time since the previous frame, in seconds. */
  function GameLoop(s: EngineState, now: real): (r: EngineState)
    requires s.status == Playing ==> now > s.lastTime && AllMovable(s.bugs)
    ensures s.status != Playing ==> r == s
    // while playing, one frame of the time elapsed since the last one
    ensures s.status == Playing ==>
      && r.lastTime == now
      && r.currentWave == s.currentWave && r.currentLevel == s.currentLevel
      && r.spawnTimer == (if |s.spawnQueue| > 0 then s.spawnTimer + (now - s.lastTime) else s.spawnTimer)
      && r.lives <= s.lives && (r.status == Playing || r.status == Defeat)
      && (Inv(s) ==> Inv(r) && r.score >= s.score)
  {
    if s.status != Playing then s
    else
      var stamped := s.(lastTime := now);
      InvReads(s, stamped);
      Tick(stamped, (now - s.lastTime) / 1000.0, now)
  }

  // ---------------------------------------------------------------------
  // Host timers
  // ---------------------------------------------------------------------

  /** The next-wave timer fires: the next wave starts only if the game is
      still playing. No check ties the timer to the run that scheduled it. */
  function WaveTimerFires(s: EngineState): (r: EngineState)
    requires s.waveTimers > 0
    ensures r.waveTimers == s.waveTimers - 1
    ensures s.status != Playing ==> r == s.(waveTimers := s.waveTimers - 1)
    ensures s.status == Playing ==> r == StartNextWave(s.(waveTimers := s.waveTimers - 1))
  {
    var s1 := s.(waveTimers := s.waveTimers - 1);
    if s1.status == Playing then StartNextWave(s1) else s1
  }

  /** The first bug with the id, if it is still on the board. */
  function FindBug(bugs: seq<Bug>, id: nat): Option<nat> {
    FindFirst(bugs, BugWithId(id))
  }

  function BugWithId(id: nat): Bug -> bool {
    (b: Bug) => b.id == id
  }


  /** A data engineer's deferred hit lands on its bug if that bug is still
      alive. A bug it kills pays no bounty: it is simply dropped later. */
  function DelayedHitFires(s: EngineState): (r: EngineState)
    requires |s.delayedHits| > 0
    ensures r.delayedHits == s.delayedHits[1..]
    ensures r.gold == s.gold && r.score == s.score
    ensures r.bugs == HitBug(s.bugs, s.delayedHits[0])
    ensures r == s.(bugs := r.bugs, delayedHits := r.delayedHits)
    ensures AllBugsOk(s.bugs) ==> AllBugsOk(r.bugs)
  {
    s.(bugs := HitBug(s.bugs, s.delayedHits[0]), delayedHits := s.delayedHits[1..])
  }

  /** The delayed hit on the bug with id `id`: only the first bug with that
      id takes it, and only while alive; no kill is reported. */
  function HitBug(bugs: seq<Bug>, id: nat): (r: seq<Bug>)
    ensures SameBugs(bugs, r)
    ensures forall i :: 0 <= i < |bugs| ==>
      r[i] == if FindBug(bugs, id) == Some(i) && bugs[i].isAlive
              then TakeDamage(bugs[i], DelayedHitDamage).0 else bugs[i]
    ensures AllBugsOk(bugs) ==> AllBugsOk(r)
  {
    match FindBug(bugs, id)
    case None => bugs
    case Some(k) =>
      if bugs[k].isAlive then
        var r := bugs[k := TakeDamage(bugs[k], DelayedHitDamage).0];
        assert AllBugsOk(bugs) ==> BugOk(bugs[k]);
        r
      else bugs
  }


  // ---------------------------------------------------------------------
  // Commands and their composition
  // ---------------------------------------------------------------------

  /** Everything that can happen to the engine: player commands, frames and
      the host's timers. Towers are named by their index in the list. */
  datatype Command =
    | SelectType(choice: Option<DeveloperType>)
    | SelectTowerAt(hit: Option<nat>)
    | Place(devType: DeveloperType, spot: nat)
    | Sell(tower: nat)
    | UpgradeTower(tower: nat)
    | StartGame(now: real)
    | PauseGame
    | ResumeGame(now: real)
    | ResetGame
    | Frame(now: real)
    | WaveTimer
    | DelayedHit

  /** The command names an existing spot or tower, a frame comes after the
      previous one, and a timer fires only when one is pending. */
  predicate Enabled(s: EngineState, c: Command) {
    match c
    case SelectTowerAt(hit) => hit.Some? ==> hit.value < |s.towers|
    case Place(_, spot) => spot < |s.spots|
    case Sell(i) => i < |s.towers|
    case UpgradeTower(i) => i < |s.towers|
    case Frame(now) => s.status == Playing ==> now > s.lastTime
    case WaveTimer => s.waveTimers > 0
    case DelayedHit => |s.delayedHits| > 0
    case _ => true
  }

  /** One transition. Every reachable state keeps the invariant (so gold is
      never negative), and only a reset lowers the score. */
  function Step(s: EngineState, c: Command): (r: EngineState)
    requires Inv(s) && Enabled(s, c)
    ensures Inv(r)
    ensures c != ResetGame ==> r.score >= s.score
  {
    match c
    case SelectType(choice) => SelectDeveloperType(s, choice)
    case SelectTowerAt(hit) => SelectTower(s, hit)
    case Place(dt, spot) => PlaceKeepsInv(s, dt, spot); PlaceDeveloper(s, dt, spot).0
    case Sell(i) => SellKeepsInv(s, i); SellDeveloper(s, i)
    case UpgradeTower(i) => UpgradeKeepsInv(s, i); UpgradeDeveloper(s, i).0
    case StartGame(now) => StartKeepsInv(s, now); Start(s, now)
    case PauseGame => PauseResumeKeepInv(s, 0.0); Pause(s)
    case ResumeGame(now) => PauseResumeKeepInv(s, now); Resume(s, now)
    case ResetGame => ResetKeepsInv(s); Reset(s)
    case Frame(now) => FrameKeepsInv(s, now); GameLoop(s, now)
    case WaveTimer => WaveTimerKeepsInv(s); WaveTimerFires(s)
    case DelayedHit => DelayedHitKeepsInv(s); DelayedHitFires(s)
  }

  lemma PlaceKeepsInv(s: EngineState, dt: DeveloperType, spot: nat)
    requires Inv(s) && spot < |s.spots|
    ensures Inv(PlaceDeveloper(s, dt, spot).0) && PlaceDeveloper(s, dt, spot).0.score == s.score
  {
    var r := PlaceDeveloper(s, dt, spot);
    if r.1 {
      assert forall i :: 0 <= i < |s.towers| ==> r.0.towers[i] == s.towers[i];
    }
  }

  lemma SellKeepsInv(s: EngineState, i: nat)
    requires Inv(s) && i < |s.towers|
    ensures Inv(SellDeveloper(s, i)) && SellDeveloper(s, i).score == s.score
  {
    SellRemovesExactlyOne(s, i);
    RemoveKeepsTowers(s.towers, i, s.nextId);
    InvReads(s.(gold := SellDeveloper(s, i).gold, towers := SellDeveloper(s, i).towers), SellDeveloper(s, i));
  }

  /** Dropping one tower keeps the others well-formed and their ids distinct. */
  lemma RemoveKeepsTowers(towers: seq<Tower>, i: nat, nextId: nat)
    requires i < |towers| && TowersOk(towers, nextId) && DistinctIds(towers)
    ensures TowersOk(towers[..i] + towers[i + 1..], nextId)
    ensures DistinctIds(towers[..i] + towers[i + 1..])
  {
    var r := towers[..i] + towers[i + 1..];
    forall j | 0 <= j < |r|
      ensures r[j] == towers[if j < i then j else j + 1]
    {
    }
  }

  lemma UpgradeKeepsInv(s: EngineState, i: nat)
    requires Inv(s) && i < |s.towers|
    ensures Inv(UpgradeDeveloper(s, i).0) && UpgradeDeveloper(s, i).0.score == s.score
  {
  }

  lemma StartNextWaveKeepsInv(s: EngineState)
    requires Inv(s)
    ensures Inv(StartNextWave(s)) && StartNextWave(s).score == s.score
  {
  }

  lemma StartKeepsInv(s: EngineState, now: real)
    requires Inv(s)
    ensures Inv(Start(s, now)) && Start(s, now).score == s.score
  {
    var playing := s.(status := Playing);
    InvReads(s, playing);
    StartNextWaveKeepsInv(playing);
    if s.status != Playing {
      var loaded := if s.currentWave == 0 then StartNextWave(playing) else playing;
      InvReads(loaded, loaded.(lastTime := now));
    }
  }

  lemma PauseResumeKeepInv(s: EngineState, now: real)
    requires Inv(s)
    ensures Inv(Pause(s)) && Pause(s).score == s.score
    ensures Inv(Resume(s, now)) && Resume(s, now).score == s.score
  {
    InvReads(s, Pause(s));
    InvReads(s, Resume(s, now));
  }

  lemma ResetKeepsInv(s: EngineState)
    ensures Inv(Reset(s))
  {
  }

  lemma WaveTimerKeepsInv(s: EngineState)
    requires Inv(s) && s.waveTimers > 0
    ensures Inv(WaveTimerFires(s)) && WaveTimerFires(s).score == s.score
  {
    var s1 := s.(waveTimers := s.waveTimers - 1);
    InvReads(s, s1);
    StartNextWaveKeepsInv(s1);
  }

  lemma DelayedHitKeepsInv(s: EngineState)
    requires Inv(s) && |s.delayedHits| > 0
    ensures Inv(DelayedHitFires(s)) && DelayedHitFires(s).score == s.score
  {
    InvReads(s.(bugs := DelayedHitFires(s).bugs), DelayedHitFires(s));
  }

  lemma FrameKeepsInv(s: EngineState, now: real)
    requires Inv(s) && (s.status == Playing ==> now > s.lastTime)
    ensures AllMovable(s.bugs)
    ensures Inv(GameLoop(s, now)) && GameLoop(s, now).score >= s.score
  {
    OkIsMovable(s.bugs);
  }

  // ---------------------------------------------------------------------
  // Scenarios
  // ---------------------------------------------------------------------

  /** Starting a fresh game loads wave 1 of level 1: eight Typos due at
      0, 1000, ..., 7000 ms. */
  lemma StartFromInitial(now: real)
    ensures var r := Start(Initial(), now);
      && r.status == Playing && r.currentWave == 1 && r.spawnTimer == 0.0
      && |r.spawnQueue| == 8
      && forall i :: 0 <= i < 8 ==> r.spawnQueue[i] == SpawnEntry(Typo, 1000 * i)
  {
    Wave1Queue();
  }

  /** Asking level 1 for a fifth wave declares victory, after the wave
      counter has already moved to 5. */
  lemma VictoryAfterLastWave(s: EngineState)
    requires s.currentLevel == 1 && s.currentWave == 4
    ensures StartNextWave(s).status == Victory && StartNextWave(s).currentWave == 5
  {
  }

  /** Placement does not check occupancy: a second tower placed on the same
      spot takes it over, and no spot names the first tower any more. */
  lemma PlaceOnOccupiedSpot()
    ensures var s1 := PlaceDeveloper(Initial(), JuniorDev, 0);
      var s2 := PlaceDeveloper(s1.0, JuniorDev, 0);
      && s1.1 && s2.1
      && |s2.0.towers| == 2
      && s2.0.spots[0].developerId == Some(s2.0.towers[1].id)
      && forall i :: 0 <= i < |s2.0.spots| ==> s2.0.spots[i].developerId != Some(s2.0.towers[0].id)
  {
  }

  /** A next-wave timer left over from before a reset fires into the new
      run: right after starting wave 1, wave 2 starts at once. */
  lemma StaleWaveTimerAfterReset(s: EngineState, now: real)
    requires s.waveTimers > 0 && s.currentLevel == 1
    ensures WaveTimerFires(Start(Reset(s), now)).currentWave == 2
  {
  }

  /** A live bug standing on the last waypoint reaches the end in any frame. */
  lemma BreachAtEnd(b: Bug, frames: real)
    requires frames > 0.0 && Movable(b) && b.isAlive
    requires b.pathIndex == 7 && b.pos == b.target
    ensures Advance(b, frames).1 && !Advance(b, frames).0.isAlive
  {
    MulPos(b.speed, b.slowFactor);
    MulPos(Mul(b.speed, b.slowFactor), frames);
    var d := DecaySlow(b, frames);
    MulPos(d.speed, d.slowFactor);
    MulPos(Mul(d.speed, d.slowFactor), frames);
    assert SqDist(d.pos, d.target) == 0.0;
  }

  lemma {:induction false} AllBreach(bugs: seq<Bug>, frames: real)
    requires frames > 0.0 && AllMovable(bugs)
    requires forall i :: 0 <= i < |bugs| ==> Advance(bugs[i], frames).1
    ensures Breaches(bugs, frames) == |bugs|
  {
    if |bugs| > 0 {
      AllBreach(bugs[1..], frames);
    }
  }

  /** Lives have no floor: when every bug on the board reaches the end in
      the same frame, each costs a life, below zero if need be, and the
      board is cleared. */
  lemma LivesHaveNoFloor(s: EngineState, dt: real)
    requires dt > 0.0 && AllMovable(s.bugs)
    requires forall i :: 0 <= i < |s.bugs| ==> Advance(s.bugs[i], dt * 60.0).1
    ensures UpdateBugs(s, dt).lives == s.lives - |s.bugs|
    ensures |s.bugs| > 0 && s.lives <= |s.bugs| ==> UpdateBugs(s, dt).status == Defeat
    ensures UpdateBugs(s, dt).bugs == []
  {
    AllBreach(s.bugs, dt * 60.0);
    FilterNone(MoveBugs(s.bugs, dt * 60.0, s.lives, s.status).bugs, Alive());
  }
}

/**
  Static configuration: initial run values, the level-1 path, the tower
  placement spots and the per-level wave tables.
 */
module GameConfig {
  import opened Types

  const InitialGold: int := 500
  const InitialLives: int := 20

  /** The polyline bugs walk on level 1, from the data core to the data port. */
  function Level1Path(): (path: seq<Point>)
    ensures |path| == 9
    ensures AxisAligned(path)
  {
    [ Point(40.0, 520.0), Point(40.0, 200.0), Point(200.0, 200.0),
      Point(200.0, 120.0), Point(480.0, 120.0), Point(480.0, 400.0),
      Point(640.0, 400.0), Point(640.0, 520.0), Point(920.0, 520.0) ]
  }

  /** A spot a tower may be placed on; `developerId` names the tower on it. */
  datatype PlacementSpot = PlacementSpot(pos: Point, isOccupied: bool, developerId: Option<nat>)

  function FreeSpot(x: real, y: real): PlacementSpot {
    PlacementSpot(Point(x, y), false, None)
  }

  function InitialSpots(): (spots: seq<PlacementSpot>)
    ensures |spots| == 15
    ensures forall i :: 0 <= i < |spots| ==> !spots[i].isOccupied && spots[i].developerId == None
  {
    [ FreeSpot(120.0, 280.0), FreeSpot(120.0, 360.0), FreeSpot(120.0, 440.0),
      FreeSpot(280.0, 200.0), FreeSpot(360.0, 200.0), FreeSpot(400.0, 40.0),
      FreeSpot(320.0, 320.0), FreeSpot(400.0, 320.0), FreeSpot(560.0, 280.0), FreeSpot(560.0, 360.0),
      FreeSpot(720.0, 320.0), FreeSpot(720.0, 440.0), FreeSpot(800.0, 440.0),
      FreeSpot(280.0, 520.0), FreeSpot(480.0, 520.0) ]
  }

  /** `count` bugs of one type, `spawnInterval` ms apart. */
  datatype WaveGroup = WaveGroup(bugType: BugType, count: int, spawnInterval: int)

  datatype WaveConfig = WaveConfig(waveNumber: int, groups: seq<WaveGroup>, delayBeforeWave: int)

  datatype LevelConfig = LevelConfig(id: int, initialGold: int, initialLives: int, waves: seq<WaveConfig>)

  predicate WellFormedWave(w: WaveConfig) {
    forall g :: g in w.groups ==> g.count >= 1 && g.spawnInterval > 0
  }

  predicate WellFormedLevel(l: LevelConfig) {
    forall w :: w in l.waves ==> WellFormedWave(w)
  }

  function Level1Waves(): seq<WaveConfig> {
    [ WaveConfig(1, [WaveGroup(Typo, 8, 1000)], 3000),
      WaveConfig(2, [WaveGroup(Typo, 10, 800), WaveGroup(NullPointerException, 3, 2000)], 5000),
      WaveConfig(3, [WaveGroup(Typo, 5, 600), WaveGroup(NullPointerException, 5, 1500),
                     WaveGroup(MemoryLeak, 2, 3000)], 5000),
      WaveConfig(4, [WaveGroup(NullPointerException, 8, 1000), WaveGroup(MemoryLeak, 4, 2000),
                     WaveGroup(SystemCrash, 1, 8000)], 5000) ]
  }

  function Level2Waves(): seq<WaveConfig> {
    [ WaveConfig(1, [WaveGroup(Typo, 15, 600), WaveGroup(NullPointerException, 5, 1500)], 3000),
      WaveConfig(2, [WaveGroup(NullPointerException, 10, 1000), WaveGroup(MemoryLeak, 5, 2000)], 5000),
      WaveConfig(3, [WaveGroup(MemoryLeak, 8, 1500), WaveGroup(SystemCrash, 2, 6000)], 5000) ]
  }

  function LevelConfigs(): (levels: seq<LevelConfig>)
    ensures |levels| == 2
    ensures levels[0].id == 1 && |levels[0].waves| == 4
    ensures levels[0].waves[0].groups == [WaveGroup(Typo, 8, 1000)]
    ensures forall l :: l in levels ==> WellFormedLevel(l)
  {
    [ LevelConfig(1, 500, 20, Level1Waves()),
      LevelConfig(2, 600, 15, Level2Waves()) ]
  }

  /** The first level whose id matches, as `Array.find` returns it. */
  function FindLevel(levels: seq<LevelConfig>, id: int): (r: Option<LevelConfig>)
    ensures r.None? <==> forall l :: l in levels ==> l.id != id
    ensures r.Some? ==> r.value in levels && r.value.id == id
    ensures r.Some? ==> exists i :: 0 <= i < |levels| && levels[i] == r.value && forall j :: 0 <= j < i ==> levels[j].id != id
  {
    if |levels| == 0 then None
    else if levels[0].id == id then Some(levels[0])
    else FindLevel(levels[1..], id)
  }
}

# code-defense core in Dafny

This project models the simulation core of *code-defense*, a browser
tower-defence game. Players place "developers" (towers) on fixed spots
along a path. The developers shoot down "bugs" (enemies) that walk the
path in waves. The model covers:

- the bug entity: spawning, damage after armour, slowing, and walking the
  path waypoint by waypoint;
- the developer entity: range and target filtering, "first best" target
  choice, single-target and area attacks, the delayed second hit, upgrade
  cost and sell price;
- the game engine: the economy commands (place, sell, upgrade, select), the
  status machine (start, pause, resume, reset, victory, defeat), the wave
  spawn queue, and one frame of simulation (spawn, move, attack, age
  effects, detect wave completion);
- the stat tables and the level/wave configuration;
- the two persisted stores: the game record (gold, lives, owned developers)
  and the daily task list that pays gold.

Modules, one per source unit:

| module | file | models |
|---|---|---|
| `Types` | `types.dfy` | enums, points, stat tables, and the real-arithmetic helpers used for distances |
| `GameConfig` | `game_config.dfy` | the level-1 path, placement spots, and level and wave tables |
| `Seqs` | `seqs.dfy` | order-keeping `filter` and its laws |
| `BugEntity` | `bug_entity.dfy` | the bug class |
| `DeveloperEntity` | `developer_entity.dfy` | the developer class, plus kill and bounty bookkeeping |
| `SpawnQueue` | `spawn_queue.dfy` | wave expansion and the per-frame drain |
| `GameEngine` | `game_engine.dfy` | the engine: state, commands, frame, host events, `Step` |
| `Stores` | `stores.dfy` | the game-record store and the task store |

Modelling choices:

- **State.** The engine is an immutable `EngineState` record. Every public
  method becomes a function from state to state. Methods that report
  success also return a `bool`.
- **Numbers.** Positions, speeds and times are `real`. Gold, hit points,
  prices and costs are `int`. Every `Math.floor` in the source is written
  as integer division by a constant. The contracts then state the floor as
  two-sided bounds, for example `2*c <= cost*level < 2*c + 2`.
- **Distances.** Ranges are compared on squared distances. The model shows
  this agrees with comparing Euclidean distances, since both are
  non-negative.
- **Ids.** Random id strings become a counter, `nextId`.
- **Commands on towers.** A tower is named by its index in the tower list.
- **Host callbacks.** `requestAnimationFrame` and the two `setTimeout`
  callbacks are turned into events that the host fires:
  - `Frame`: one call of the game loop at a given time;
  - `WaveTimer`: the post-wave timer fires;
  - `DelayedHit`: a delayed hit lands.

  `GameEngine.Step` applies any one of these events or a player command,
  and keeps the engine invariant `GameEngine.Inv`.
- **Engine invariant.** `GameEngine.Inv` says:
  - gold is never negative;
  - every bug is well formed, tracks the level-1 path, and stands on the
    axis line toward its waypoint;
  - every tower is well formed;
  - tower ids are distinct and below the counter.

Some behaviours of the code differ from what a player might expect. The
model keeps the code's behaviour:

- **Spawn groups are not independent.** One might expect each group of a
  wave to spawn on its own schedule. The code appends all groups to one
  queue and only ever spawns from its head. So a later group waits for
  every entry queued before it (`SpawnQueue.Wave2Burst`).
- **Occupied spots are not rejected.** One might expect placing on an
  occupied spot to fail. The code only checks gold. A second placement
  succeeds and orphans the first tower (`GameEngine.PlaceOnOccupiedSpot`).
- **Stale wave timers survive reset.** One might expect a deferred wave
  start from an earlier run to be dropped. The code's timer only checks
  that the status is `playing`. A timer armed before a reset still starts the next wave once
  the new run is playing (`GameEngine.StaleWaveTimerAfterReset`).
- **No floor on lives.** Lives can go below zero. Every breach in the frame
  that causes defeat is still subtracted (`GameEngine.LivesHaveNoFloor`).

## Model

| member | source | states |
|---|---|---|
| Types.DeveloperConfigOf | code-defense/src/types/index.ts:122-188 | every developer template starts at level 1 with positive cost, damage, attack interval and range; only the UI designer hits an area; only the security expert may target a system crash; every developer may target a typo |
| Types.BugConfigOf | code-defense/src/types/index.ts:191-232 | every bug starts at full health (hp equals maxHp, both positive) with non-negative armour, positive speed and positive reward; exactly the system crash is a boss |
| GameConfig.Level1Path | code-defense/src/config/gameConfig.ts:27-37 | the level-1 path has nine waypoints and each leg is horizontal or vertical |
| GameConfig.InitialSpots | code-defense/src/config/gameConfig.ts:41-66 | there are fifteen placement spots, none occupied and none naming a developer |
| GameConfig.LevelConfigs | code-defense/src/config/gameConfig.ts:69-143 | two levels; level 1 has four waves, the first being eight typos 1000 ms apart; every group has a positive count and interval |
| GameConfig.FindLevel | code-defense/src/game/GameEngine.ts:284-285 | the level lookup fails exactly when no level has the id, and otherwise returns the first level with that id |
| Seqs.Filter | code-defense/src/game/GameEngine.ts:382 | a filtered list holds exactly the elements of the input that pass the test, each of them passing it, and is no longer than the input |
| Seqs.FilterAppend | code-defense/src/stores/index.ts:211 | filtering keeps order: filtering a concatenation is concatenating the filtered parts |
| Seqs.FindFirst | code-defense/src/stores/index.ts:91 | the lookup fails exactly when no element passes the test, and otherwise returns the index of the first element that does; the engine uses it for spots and bugs, the stores for developers and tasks |
| Seqs.FilterLength | code-defense/src/game/GameEngine.ts:382 | the filtered list is shorter than the input by exactly the number of rejected elements |
| BugEntity.NewBug | code-defense/src/game/entities/BugEntity.ts:29-53 | a new bug has the stats of its type, full health, no slow, stands on the first waypoint heading for the second, and is well formed |
| BugEntity.EffectiveDamage | code-defense/src/game/entities/BugEntity.ts:57 | armour reduces a hit but never below one point |
| BugEntity.TakeDamage | code-defense/src/game/entities/BugEntity.ts:56-66 | hp drops by the armour-reduced damage, clamped at zero; the call reports a kill exactly when hp ends at zero, and a reported kill marks the bug dead; nothing but hp and liveness changes; well-formedness is kept |
| BugEntity.HitsClosedForm | code-defense/src/game/entities/BugEntity.ts:56-66 | n equal hits on a living bug leave max(0, hp - n*effectiveDamage) hit points |
| BugEntity.TypoDiesOnFourthHit | code-defense/src/game/entities/BugEntity.ts:56-66 | a typo survives three junior-developer hits and dies on the fourth |
| BugEntity.ApplySlow | code-defense/src/game/entities/BugEntity.ts:69-72 | a slow keeps the strongest factor and the longest duration seen |
| BugEntity.ApplySlowCommutes | code-defense/src/game/entities/BugEntity.ts:69-72 | the order in which two slows land does not matter |
| BugEntity.ApplySlowIdempotent | code-defense/src/game/entities/BugEntity.ts:69-72 | applying the same slow twice is the same as applying it once |
| BugEntity.SlowCompositionExample | code-defense/src/game/entities/BugEntity.ts:69-72 | a weak long slow followed by a strong short one gives the strong factor for the long duration |
| BugEntity.Approach | code-defense/src/game/entities/BugEntity.ts:108-114 | on an axis-parallel leg a step stays on the leg and shortens the remaining distance to the waypoint by exactly the step length |
| BugEntity.Update | code-defense/src/game/entities/BugEntity.ts:75-117 | a dead bug does not move; a live bug snaps onto its waypoint (advancing the path index by one) exactly when the waypoint is closer than speed × slow factor × frames, and otherwise keeps its waypoint and, on an axis line, steps exactly that far toward it; it reports reaching the end exactly when it snaps onto the last waypoint; the slow timer counts down and resets the factor at expiry; well-formedness is kept |
| BugEntity.UpdateFollowsPath | code-defense/src/game/entities/BugEntity.ts:94-107 | a moving bug keeps heading for the waypoint its path index names and stays on the axis line toward it |
| DeveloperEntity.NewTower | code-defense/src/game/entities/DeveloperEntity.ts:28-48 | a new developer takes the stats of its type at level 1, has never attacked, and is well formed |
| DeveloperEntity.CanAttackIsEuclidean | code-defense/src/game/entities/DeveloperEntity.ts:51-67 | the squared-distance range test agrees with the Euclidean one: a developer can attack a live bug of an allowed type within its range |
| DeveloperEntity.FirstBestUnique | code-defense/src/game/entities/DeveloperEntity.ts:70-85 | there is at most one first eligible bug with the most path progress |
| DeveloperEntity.FindTargetFrom | code-defense/src/game/entities/DeveloperEntity.ts:70-85 | the scan returns no index exactly when no bug is eligible; otherwise it returns the first eligible bug whose path progress no other eligible bug beats |
| DeveloperEntity.FindTarget | code-defense/src/game/entities/DeveloperEntity.ts:70-85 | the chosen target is eligible and the first one with the most path progress, and there is none exactly when nothing is in range |
| DeveloperEntity.BountyAdditive | code-defense/src/game/GameEngine.ts:404-410 | the reward for the bugs killed between two rounds of attacks adds up over consecutive rounds, so each kill is paid exactly once |
| DeveloperEntity.BountyNonNeg | code-defense/src/game/GameEngine.ts:404-410 | the reward paid for kills is never negative when rewards are not |
| DeveloperEntity.DiedAtOne | code-defense/src/game/entities/DeveloperEntity.ts:141-148 | damaging one bug kills at most that bug and reports it exactly when it dies |
| DeveloperEntity.Splash | code-defense/src/game/entities/DeveloperEntity.ts:111-132 | an area attack treats every bug independently: live bugs within the splash radius of the target take the hit (and the slow, for a slowing developer), all other bugs are left alone; the kills listed are exactly the bugs that died and the damage dealt sums over the bugs hit |
| DeveloperEntity.SplashStep | code-defense/src/game/entities/DeveloperEntity.ts:113-126 | one splash hit damages by the armour-reduced amount and applies the slow only when asked |
| DeveloperEntity.Attack | code-defense/src/game/entities/DeveloperEntity.ts:88-162 | on cooldown nothing happens; with no target only the target is cleared; otherwise the attack time is set and either the area splash or the single target's hit is applied, with the bug list keeping its ids, the kills listed being exactly the bugs that died; a single-target hit deals double damage when a security expert hits a boss, and schedules a delayed hit exactly when a data engineer's hit does not kill |
| DeveloperEntity.CooldownSpacing | code-defense/src/game/entities/DeveloperEntity.ts:96-108 | two attacks that fire are at least the attack interval apart |
| DeveloperEntity.Upgrade | code-defense/src/game/entities/DeveloperEntity.ts:165-174 | an upgrade below the maximum level raises the level by one and scales damage by 1.5, range by 1.1 and interval by 0.9, each floored; at the maximum it fails and changes nothing |
| DeveloperEntity.UpgradeCost | code-defense/src/game/entities/DeveloperEntity.ts:177-179 | the upgrade cost is half the base cost times the level, floored |
| DeveloperEntity.SellPrice | code-defense/src/game/entities/DeveloperEntity.ts:182-186 | the sell price is 70% of the cost plus 25% per level above one, floored |
| DeveloperEntity.SellPriceMonotone | code-defense/src/game/entities/DeveloperEntity.ts:182-186 | a higher level never sells for less |
| SpawnQueue.ExpandFrom | code-defense/src/game/GameEngine.ts:302-310 | a group of n bugs expands to n entries of its type, entry k due k intervals into the wave |
| SpawnQueue.BuildQueue | code-defense/src/game/GameEngine.ts:302-310 | the queue holds one entry per bug over all groups |
| SpawnQueue.QueueLayout | code-defense/src/game/GameEngine.ts:302-310 | entry i of group k sits right after all entries of the earlier groups and is due i intervals into the wave |
| SpawnQueue.Drain | code-defense/src/game/GameEngine.ts:354-358 | a frame spawns a prefix of the queue whose entries are all due, and leaves a remainder whose head is not yet due |
| SpawnQueue.DrainAllDue | code-defense/src/game/GameEngine.ts:354-358 | once every entry is due the whole queue spawns in one frame |
| SpawnQueue.Wave1Queue | code-defense/src/config/gameConfig.ts:76-82 | wave 1 of level 1 queues eight typos due at 0, 1000, …, 7000 ms |
| SpawnQueue.Wave2Layout | code-defense/src/config/gameConfig.ts:83-90 | wave 2 of level 1 queues ten typos 800 ms apart (entries 0 to 9) followed by three null-pointer exceptions 2000 ms apart (entries 10 to 12) |
| SpawnQueue.Wave2Burst | code-defense/src/config/gameConfig.ts:87-88 | in wave 2 no null-pointer exception spawns before the last typo is due at 7200 ms, and from then on all of them spawn together |
| GameEngine.Initial | code-defense/src/game/GameEngine.ts:96-124 | a new engine has 500 gold, 20 lives, score 0, level 1, wave 0, idle status, and satisfies the invariant |
| GameEngine.PlaceDeveloper | code-defense/src/game/GameEngine.ts:185-208 | placing succeeds exactly when gold covers the cost; success debits the cost, appends a new level-1 developer at the spot, marks the spot occupied by it and clears the pending type; failure changes nothing |
| GameEngine.SellDeveloper | code-defense/src/game/GameEngine.ts:211-226 | selling credits the sell price, frees the developer's spot, removes the developer by id and clears the selection |
| GameEngine.RemoveById | code-defense/src/game/GameEngine.ts:224 | with distinct ids, filtering out one developer's id removes exactly that developer and keeps the others in order |
| GameEngine.SellRemovesExactlyOne | code-defense/src/game/GameEngine.ts:211-226 | selling removes exactly one developer and never loses gold |
| GameEngine.SellPriceNonNeg | code-defense/src/game/entities/DeveloperEntity.ts:182-186 | a well-formed developer never sells for a negative price |
| GameEngine.UpgradeDeveloper | code-defense/src/game/GameEngine.ts:229-239 | upgrading succeeds exactly when gold covers the cost at the current level and the level is below three; success debits that cost and upgrades the developer in place; failure changes nothing |
| GameEngine.SelectDeveloperType | code-defense/src/game/GameEngine.ts:242-244 | choosing a type changes only the pending type |
| GameEngine.SelectTower | code-defense/src/game/GameEngine.ts:171-181 | a click on a developer makes it the inspected one, a click on none clears the inspection, and nothing else changes |
| GameEngine.SellSelected | code-defense/src/game/GameEngine.ts:211-226 | selling the inspected developer clears the inspection and leaves no developer with its id |
| GameEngine.StartNextWave | code-defense/src/game/GameEngine.ts:283-313 | an unknown level changes nothing; otherwise the wave counter rises; past the last wave the game is won; otherwise the wave's queue is loaded with a fresh spawn clock |
| GameEngine.Start | code-defense/src/game/GameEngine.ts:247-259 | starting while playing does nothing; otherwise the game plays from now, and from an unstarted game wave 1 is loaded |
| GameEngine.Pause | code-defense/src/game/GameEngine.ts:261-270 | pausing sets the status to paused and changes nothing else |
| GameEngine.Resume | code-defense/src/game/GameEngine.ts:273-280 | resuming acts only on a paused game, setting it playing from now |
| GameEngine.PauseThenResume | code-defense/src/game/GameEngine.ts:261-280 | pausing then resuming returns the same game, playing from the resume time |
| GameEngine.Reset | code-defense/src/game/GameEngine.ts:496-524 | reset restores the starting gold, lives and score, empties bugs, developers, effects and queue, frees all fifteen spots, and keeps the level and pending host timers |
| GameEngine.ResetIsInitial | code-defense/src/game/GameEngine.ts:496-524 | a reset game equals a new engine except for the level, the clocks, the id counter and the pending host timers |
| GameEngine.SpawnBugs | code-defense/src/game/GameEngine.ts:355-357 | each spawned entry becomes a fresh bug of its type on the level-1 path, with consecutive new ids |
| GameEngine.UpdateSpawning | code-defense/src/game/GameEngine.ts:348-359 | with an empty queue nothing happens, not even the spawn clock; otherwise the clock advances by the frame time in ms, the board, queue and id counter change exactly as spawning the due entries says, and nothing else changes; the bug part of the invariant is kept |
| GameEngine.SpawnDue | code-defense/src/game/GameEngine.ts:353-358 | the longest prefix of due entries leaves the queue and joins the end of the board as new bugs with consecutive fresh ids; the first entry left is not yet due; the bugs already on the board are untouched |
| GameEngine.Advance | code-defense/src/game/GameEngine.ts:366-377 | a bug that reaches the end is reported and marked dead; any other bug moves as the bug update says |
| GameEngine.MoveBugs | code-defense/src/game/GameEngine.ts:363-379 | every bug moves; lives drop by one per bug that reaches the end; the status becomes defeat exactly when a breach happens with lives at or below zero |
| GameEngine.UpdateBugs | code-defense/src/game/GameEngine.ts:362-383 | a frame of dt seconds moves bugs 60*dt frames, takes a life per breach, and keeps exactly the moved bugs that are still alive |
| GameEngine.AdvanceKeepsOk | code-defense/src/game/entities/BugEntity.ts:94-114 | a surviving bug stays well formed, on the path and on the axis line to its waypoint |
| GameEngine.UpdateBugsKeepsOk | code-defense/src/game/GameEngine.ts:362-383 | the bug part of the invariant survives a movement frame |
| GameEngine.AttackAll | code-defense/src/game/GameEngine.ts:386-412 | each developer keeps its stats, the bug ids are kept, the rewards of the kills listed equal the bounty of the bugs that died, and each developer adds at most one trace and one delayed hit |
| GameEngine.AttackAllOne | code-defense/src/game/GameEngine.ts:388-401 | a pass of one developer is its attack: its kills, the bugs it leaves, a trace to the target's position exactly when a single-target attack fires, and its delayed hit if it scheduled one |
| GameEngine.AttackAllAppend | code-defense/src/game/GameEngine.ts:386-412 | the developers attack in list order: a later run of developers attacks the bugs the earlier run left, and developers, traces, kills and delayed hits are listed in developer order |
| GameEngine.AttackAllKeepsOk | code-defense/src/game/GameEngine.ts:386-412 | attacks keep every bug well formed and on its path |
| GameEngine.UpdateDevelopers | code-defense/src/game/GameEngine.ts:386-412 | after all attacks, gold rises by the reward of each bug that died and score by ten times that; the pass's traces and delayed hits are appended after the pending ones, and the board and developers are the ones the pass leaves |
| GameEngine.AgedMember | code-defense/src/game/GameEngine.ts:416-418 | aging shortens every effect by the same amount of time |
| GameEngine.Expire | code-defense/src/game/GameEngine.ts:416-419 | an effect survives aging exactly when its younger self was in the list and time is left on it |
| GameEngine.UpdateAttackEffects | code-defense/src/game/GameEngine.ts:415-420 | the kept effects are exactly the aged ones with time left, and nothing but the effect list changes |
| GameEngine.CheckWaveComplete | code-defense/src/game/GameEngine.ts:423-436 | a wave completes when its queue and the board are both empty, and completing arms exactly one wave timer |
| GameEngine.WaveCompletesOnce | code-defense/src/game/GameEngine.ts:423-436 | checking twice is the same as checking once, so at most one timer is armed per wave |
| GameEngine.Tick | code-defense/src/game/GameEngine.ts:330-345 | one frame keeps the engine invariant, never lowers the score, does not change the wave or level, advances the spawn clock by the frame time exactly when something is queued, never raises lives, and changes the status only to defeat |
| GameEngine.GameLoop | code-defense/src/game/GameEngine.ts:316-327 | the loop does nothing unless playing; when playing it stamps the time, advances a non-empty queue's spawn clock by the time elapsed since the last frame, keeps wave and level, never raises lives, leaves the game playing or lost, and keeps the invariant without lowering the score |
| GameEngine.WaveTimerFires | code-defense/src/game/GameEngine.ts:431-435 | a firing wave timer starts the next wave only if the game is playing |
| GameEngine.DelayedHitFires | code-defense/src/game/entities/DeveloperEntity.ts:151-158 | the oldest pending delayed hit is consumed and lands as the bug-level hit says; gold and score do not change, so a kill by a delayed hit pays no bounty |
| GameEngine.HitBug | code-defense/src/game/entities/DeveloperEntity.ts:151-158 | only the first bug with the id takes the delayed ten-point hit (after armour), and only if it is still alive; every other bug is unchanged; ids and rewards are kept |
| GameEngine.Step | code-defense/src/game/GameEngine.ts:185-239 | every command and host event keeps the engine invariant (gold never negative, bugs on the path, distinct developer ids); only a reset lowers the score |
| GameEngine.PlaceKeepsInv | code-defense/src/game/GameEngine.ts:185-208 | placing keeps the invariant: the new developer gets a fresh id |
| GameEngine.SellKeepsInv | code-defense/src/game/GameEngine.ts:211-226 | selling keeps the invariant |
| GameEngine.UpgradeKeepsInv | code-defense/src/game/GameEngine.ts:229-239 | upgrading keeps the invariant |
| GameEngine.StartKeepsInv | code-defense/src/game/GameEngine.ts:247-259 | starting keeps the invariant and the score |
| GameEngine.WaveTimerKeepsInv | code-defense/src/game/GameEngine.ts:431-435 | a firing wave timer keeps the invariant and the score |
| GameEngine.DelayedHitKeepsInv | code-defense/src/game/entities/DeveloperEntity.ts:151-158 | a delayed hit keeps the invariant and the score |
| GameEngine.StagesKeepInv | code-defense/src/game/GameEngine.ts:330-341 | spawning, movement and attacks keep the invariant, never lower the score, and leave the wave and level alone |
| GameEngine.FrameKeepsInv | code-defense/src/game/GameEngine.ts:316-345 | a frame keeps the invariant and never lowers the score |
| GameEngine.StartFromInitial | code-defense/src/game/GameEngine.ts:247-259 | starting a new game loads wave 1: eight typos due 1000 ms apart |
| GameEngine.VictoryAfterLastWave | code-defense/src/game/GameEngine.ts:287-296 | asking for a fifth wave of level 1 ends the game in victory |
| GameEngine.PlaceOnOccupiedSpot | code-defense/src/game/GameEngine.ts:188-202 | placing twice on one spot succeeds both times and the spot names only the second developer |
| GameEngine.StaleWaveTimerAfterReset | code-defense/src/game/GameEngine.ts:431-435 | a wave timer armed before a reset still starts wave 2 of the restarted game |
| GameEngine.BreachAtEnd | code-defense/src/game/entities/BugEntity.ts:94-103 | a bug on the last waypoint reaches the end in the next frame |
| GameEngine.LivesHaveNoFloor | code-defense/src/game/GameEngine.ts:368-377 | when every bug breaches in one frame, lives drop by the number of bugs even below zero, the game is lost if lives did not exceed that number, and the board is cleared |
| Stores.InitialRecord | code-defense/src/stores/index.ts:44-52 | a fresh record has 100 gold, 20 lives, level 1, wave 0, idle status, score 0 and no developers |
| Stores.AddGold | code-defense/src/stores/index.ts:59 | adding gold changes only gold, by the amount |
| Stores.SpendGold | code-defense/src/stores/index.ts:61-68 | spending succeeds exactly when gold covers the amount, then debits it; otherwise nothing changes; gold never goes negative |
| Stores.BuyDeveloper | code-defense/src/stores/index.ts:70-87 | buying succeeds exactly when gold covers the cost, then debits it and appends the developer with its type's stats at the position; otherwise nothing changes |
| Stores.BuyIsGuardedSpend | code-defense/src/stores/index.ts:70-87 | buying spends gold exactly as spending the cost would, and adds one developer exactly when it succeeds |
| Stores.RecordSellPrice | code-defense/src/stores/index.ts:93 | the store's sell price is 70% of the cost, floored |
| Stores.SellDeveloper | code-defense/src/stores/index.ts:89-99 | selling an unknown id changes nothing; otherwise gold rises by the first match's price and every developer with the id is removed |
| Stores.RecordSellPriceIsLevelOnePrice | code-defense/src/stores/index.ts:93 | the store's sell price equals the engine's price for a level-1 developer and never exceeds the engine's price |
| Stores.TakeDamage | code-defense/src/stores/index.ts:101-109 | lives drop by the amount; the status becomes defeat when lives reach zero or less and is kept otherwise |
| Stores.TakeDamageAdds | code-defense/src/stores/index.ts:101-109 | two hits that leave the player alive after the first equal one hit of their sum |
| Stores.AddScore | code-defense/src/stores/index.ts:111 | adding points changes only the score, by the amount |
| Stores.SetStatus | code-defense/src/stores/index.ts:113 | the status is overwritten without looking at the current one |
| Stores.NextWave | code-defense/src/stores/index.ts:115 | the wave counter rises by one and nothing else changes |
| Stores.NextLevel | code-defense/src/stores/index.ts:117-121 | the level rises by one and the wave counter returns to zero |
| Stores.AdvanceWavesCounts | code-defense/src/stores/index.ts:115 | n wave advances raise the wave counter by exactly n and change nothing else |
| Stores.NextLevelForgetsWaves | code-defense/src/stores/index.ts:115-121 | however many waves were played, moving to the next level gives the same record as moving there directly |
| Stores.ResetGame | code-defense/src/stores/index.ts:123 | reset returns the fresh record, dropping gold earned and developers owned |
| Stores.ResetForgetsRun | code-defense/src/stores/index.ts:123 | the reset record does not depend on the run that preceded it |
| Stores.FreshHabits | code-defense/src/stores/index.ts:151-166 | the default habits are four uncompleted tasks rewarding 20, 30, 50 and 40 gold with fresh ids |
| Stores.InitialTasks | code-defense/src/stores/index.ts:161-167 | the task list starts with four uncompleted tasks and nothing earned |
| Stores.AddTask | code-defense/src/stores/index.ts:169-180 | a new task is appended uncompleted with a fresh id |
| Stores.ResetDailyTasks | code-defense/src/stores/index.ts:199-207 | the list is replaced by fresh uncompleted habits with new ids and the earnings total is kept |
| Stores.MarkCompleted | code-defense/src/stores/index.ts:189-193 | every task with the id is marked completed and every other task is unchanged |
| Stores.CompleteTask | code-defense/src/stores/index.ts:182-197 | completing a missing or already completed task does nothing; otherwise gold and the earnings total both rise by the first match's reward and the task is marked completed |
| Stores.CompleteTaskOnce | code-defense/src/stores/index.ts:182-197 | completing a task a second time pays nothing more |
| Stores.RemoveTask | code-defense/src/stores/index.ts:209-212 | removal keeps exactly the tasks with other ids, in order |
| Stores.RemoveTaskPiecewise | code-defense/src/stores/index.ts:209-212 | removing from a concatenation removes from each part |
| Stores.RemoveMissingTask | code-defense/src/stores/index.ts:209-212 | removing an id no task has changes nothing |

## Left out

- Rendering, the canvas, mouse hover and click hit-testing: these are presentation. Choosing a type, placing on a spot and selecting a tower are modelled as separate commands that name the spot or tower the hit test found; the click's choice between placing and selecting is left to the host.
- The UI callbacks and `getState` snapshots: they copy state out and change nothing.
- `persist` and the partial state it saves: storage is outside the model.
- The `UserStore`: it is not part of the game logic modelled here.
- Titles, descriptions, names, colours, icons and task dates: display data that no rule reads.
- Random id strings: replaced by a counter. Fresh ids are unique by construction, which the random ids only are with high probability.
- Timer delays: the 3000 ms wave delay and the 500 ms delayed hit are left out. Host events fire in the order the host chooses, and delayed hits land in the order they were scheduled.
- The synchronous first `gameLoop` call inside `start` and `resume`: it is the host's next `Frame` event. Zero-length frames are excluded: a `Frame` while playing must come strictly after the last stamped time, so the first frame after a start or resume is strictly later than it, whereas the source's synchronous call can run with a frame time of 0.
- `requestAnimationFrame` cancellation: the loop does nothing unless playing.
- Floating-point rounding: reals are exact. `Math.sqrt` is avoided by comparing squared distances.
- BugEntity.Approach: a diagonal step uses the Manhattan length instead of the Euclidean one. It is exact only on axis-parallel legs, which are the only legs of the level-1 path, and the invariant keeps every bug on them.
- BugEntity.Update: the slow timer is decremented by the frame count passed in, as the source does. The model does not convert it to milliseconds.
- GameEngine.UpdateBugs: the contract states which bugs survive, not their order. The order is the source's `filter` order, as `Seqs.FilterAppend` shows.
- GameEngine.UpdateAttackEffects: the contract states which effects are kept, not their order.
- GameEngine.Step: the score bound does not cover reset, which zeroes the score as the source does.
- DeveloperEntity.Attack: an area attack records no attack effect, as in the source. The splash ignores target types and the developer's range, as the source does.
- Levels other than 1: only the level-1 path exists, and the engine always walks it. `delayBeforeWave` is never read by the engine, so it is kept only as configuration data.
- The `destroy` method and canvas resize: they release host resources.

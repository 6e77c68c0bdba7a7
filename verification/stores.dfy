/**
  The application's persistent ledgers, as pure transitions: the game
  record (gold, lives, progress and the towers bought outside a level) and
  the task list whose completed tasks pay gold into the game record.
 */
module Stores {
  import opened Types
  import opened Seqs
  import DeveloperEntity

  // ---------------------------------------------------------------------
  // Game record
  // ---------------------------------------------------------------------

  /** A bought tower: its archetype's template and where it stands. */
  datatype Owned = Owned(id: nat, devType: DeveloperType, config: DeveloperConfig, position: Point)

  /** `nextId` numbers bought towers. */
  datatype GameRecord = GameRecord(
    gold: int,
    lives: int,
    currentLevel: int,
    currentWave: int,
    status: GameStatus,
    score: int,
    owned: seq<Owned>,
    nextId: nat)

  const RecordInitialGold: int := 100
  const RecordInitialLives: int := 20

  /** The record a new player (or a reset) starts from; ids keep counting. */
  function InitialRecord(nextId: nat): (g: GameRecord)
    ensures g.gold == RecordInitialGold && g.lives == RecordInitialLives
    ensures g.currentLevel == 1 && g.currentWave == 0 && g.status == Idle && g.score == 0
    ensures g.owned == [] && g.nextId == nextId
  {
    GameRecord(RecordInitialGold, RecordInitialLives, 1, 0, Idle, 0, [], nextId)
  }

  function AddGold(g: GameRecord, amount: int): (r: GameRecord)
    ensures r.gold - g.gold == amount
    ensures r == g.(gold := r.gold)
  {
    g.(gold := g.gold + amount)
  }

  /** Deducts `amount` only when the gold covers it. */
  function SpendGold(g: GameRecord, amount: int): (r: (GameRecord, bool))
    ensures r.1 <==> g.gold >= amount
    ensures r.1 ==> r.0 == g.(gold := g.gold - amount)
    ensures !r.1 ==> r.0 == g
    ensures g.gold >= 0 ==> r.0.gold >= 0
  {
    if g.gold >= amount then (g.(gold := g.gold - amount), true) else (g, false)
  }

  /** Buys a tower of type `t` for its template's cost. */
  function BuyDeveloper(g: GameRecord, t: DeveloperType, position: Point): (r: (GameRecord, bool))
    ensures r.1 <==> g.gold >= DeveloperConfigOf(t).cost
    ensures !r.1 ==> r.0 == g
    ensures r.1 ==>
      && r.0.owned == g.owned + [Owned(g.nextId, t, DeveloperConfigOf(t), position)]
      && r.0 == g.(gold := g.gold - DeveloperConfigOf(t).cost, owned := r.0.owned, nextId := g.nextId + 1)
  {
    var c := DeveloperConfigOf(t);
    if g.gold >= c.cost then
      (g.(gold := g.gold - c.cost, owned := g.owned + [Owned(g.nextId, t, c, position)],
          nextId := g.nextId + 1), true)
    else (g, false)
  }

  /** Buying is a guarded spend of the cost plus the new tower. */
  lemma BuyIsGuardedSpend(g: GameRecord, t: DeveloperType, position: Point)
    ensures BuyDeveloper(g, t, position).1 == SpendGold(g, DeveloperConfigOf(t).cost).1
    ensures BuyDeveloper(g, t, position).0.gold == SpendGold(g, DeveloperConfigOf(t).cost).0.gold
    ensures |BuyDeveloper(g, t, position).0.owned| == |g.owned| + (if BuyDeveloper(g, t, position).1 then 1 else 0)
  {
  }

  /** The first owned tower with the id. */
  function FindOwned(owned: seq<Owned>, id: nat): Option<nat> {
    FindFirst(owned, OwnedWithId(id))
  }

  function OwnedWithId(id: nat): Owned -> bool {
    (d: Owned) => d.id == id
  }


  /** Seventy percent of the cost, rounded down; the level plays no part. */
  function RecordSellPrice(cost: int): (p: int)
    ensures 10 * p <= 7 * cost < 10 * p + 10
  {
    cost * 7 / 10
  }

  function OwnedWithout(id: nat): Owned -> bool {
    (o: Owned) => o.id != id
  }

  /** Sells every tower with the id, paying for the first one; an unknown
      id changes nothing. */
  function SellDeveloper(g: GameRecord, id: nat): (r: GameRecord)
    ensures FindOwned(g.owned, id).None? ==> r == g
    ensures FindOwned(g.owned, id).Some? ==>
      && r.gold == g.gold + RecordSellPrice(g.owned[FindOwned(g.owned, id).value].config.cost)
      && (forall x :: x in r.owned <==> x in g.owned && x.id != id)
      && r.owned == Filter(g.owned, OwnedWithout(id))
      && r == g.(gold := r.gold, owned := r.owned)
  {
    match FindOwned(g.owned, id)
    case None => g
    case Some(k) =>
      g.(gold := g.gold + RecordSellPrice(g.owned[k].config.cost),
         owned := Filter(g.owned, OwnedWithout(id)))
  }

  /** The ledger's sell price is the in-level price of a level-1 tower, so
      it never exceeds the in-level price of an upgraded one. */
  lemma RecordSellPriceIsLevelOnePrice(t: DeveloperEntity.Tower)
    requires t.cost >= 0 && t.level >= 1
    ensures RecordSellPrice(t.cost) == DeveloperEntity.SellPrice(t.(level := 1))
    ensures RecordSellPrice(t.cost) <= DeveloperEntity.SellPrice(t)
  {
    var p := RecordSellPrice(t.cost);
    var q := DeveloperEntity.SellPrice(t.(level := 1));
    assert 20 * q <= 14 * t.cost < 20 * q + 20;
    assert 20 * p <= 14 * t.cost < 20 * p + 20;
    DeveloperEntity.SellPriceMonotone(t, 1, t.level);
    assert t.(level := t.level) == t;
  }

  /** Lives drop by `amount`; the run is lost once none is left. */
  function TakeDamage(g: GameRecord, amount: int): (r: GameRecord)
    ensures r.lives == g.lives - amount
    ensures r.status == if r.lives <= 0 then Defeat else g.status
    ensures r == g.(lives := r.lives, status := r.status)
  {
    var lives := g.lives - amount;
    g.(lives := lives, status := if lives <= 0 then Defeat else g.status)
  }

  /** Damage that leaves lives accumulates: two hits are one hit of the sum. */
  lemma TakeDamageAdds(g: GameRecord, a: int, b: int)
    requires g.lives - a > 0
    ensures TakeDamage(TakeDamage(g, a), b) == TakeDamage(g, a + b)
  {
  }

  function AddScore(g: GameRecord, points: int): (r: GameRecord)
    ensures r.score - g.score == points
    ensures r == g.(score := r.score)
  {
    g.(score := g.score + points)
  }

  /** Overwrites the status with no check of the current one: any status,
      terminal ones included, can be left this way. */
  function SetStatus(g: GameRecord, status: GameStatus): (r: GameRecord)
    ensures r.status == status
    ensures r == g.(status := r.status)
  {
    g.(status := status)
  }

  /** Only the last status written counts. */
  lemma SetStatusOverwrites(g: GameRecord, a: GameStatus, b: GameStatus)
    ensures SetStatus(SetStatus(g, a), b) == SetStatus(g, b)
  {
  }

  function NextWave(g: GameRecord): (r: GameRecord)
    ensures r.currentWave == g.currentWave + 1
    ensures r == g.(currentWave := r.currentWave)
  {
    g.(currentWave := g.currentWave + 1)
  }

  /** On to the next level, from its first wave. */
  function NextLevel(g: GameRecord): (r: GameRecord)
    ensures r.currentLevel == g.currentLevel + 1 && r.currentWave == 0
    ensures r == g.(currentLevel := r.currentLevel, currentWave := 0)
  {
    g.(currentLevel := g.currentLevel + 1, currentWave := 0)
  }

  /** `n` waves on from `g`. */
  function AdvanceWaves(g: GameRecord, n: nat): GameRecord {
    if n == 0 then g else NextWave(AdvanceWaves(g, n - 1))
  }

  /** `n` wave advances raise the wave counter by exactly `n` and change
      nothing else. */
  lemma {:induction false} AdvanceWavesCounts(g: GameRecord, n: nat)
    ensures AdvanceWaves(g, n) == g.(currentWave := g.currentWave + n)
  {
    if n > 0 {
      AdvanceWavesCounts(g, n - 1);
    }
  }

  /** Moving to the next level discards the wave progress made on the
      current one: however many waves were played, the next level starts
      at wave 0 with everything else as before. */
  lemma {:induction false} NextLevelForgetsWaves(g: GameRecord, n: nat)
    ensures NextLevel(AdvanceWaves(g, n)) == NextLevel(g)
  {
    AdvanceWavesCounts(g, n);
  }

  /** A reset forgets everything but the id counter. */
  function ResetGame(g: GameRecord): (r: GameRecord)
    ensures r == InitialRecord(g.nextId)
    ensures r.gold == RecordInitialGold && r.owned == [] && r.status == Idle
  {
    InitialRecord(g.nextId)
  }

  /** A reset does not depend on anything the run did. */
  lemma ResetForgetsRun(g: GameRecord, h: GameRecord)
    requires g.nextId == h.nextId
    ensures ResetGame(g) == ResetGame(h)
  {
  }

  // ---------------------------------------------------------------------
  // Task list
  // ---------------------------------------------------------------------

  datatype TaskKind = Habit | Video

  datatype Task = Task(id: nat, kind: TaskKind, reward: int, isCompleted: bool)

  /** `totalEarned` sums the rewards paid; `nextId` numbers new tasks. */
  datatype TaskStore = TaskStore(tasks: seq<Task>, totalEarned: int, nextId: nat)

  /** The daily habits every fresh list holds, by reward. */
  const HabitRewards: seq<int> := [20, 30, 50, 40]

  function FreshHabits(firstId: nat): (r: seq<Task>)
    ensures |r| == |HabitRewards|
    ensures forall i :: 0 <= i < |r| ==>
      r[i] == Task(firstId + i, Habit, HabitRewards[i], false)
  {
    [ Task(firstId, Habit, 20, false), Task(firstId + 1, Habit, 30, false),
      Task(firstId + 2, Habit, 50, false), Task(firstId + 3, Habit, 40, false) ]
  }

  function InitialTasks(): (ts: TaskStore)
    ensures |ts.tasks| == 4 && ts.totalEarned == 0
    ensures forall i :: 0 <= i < |ts.tasks| ==> !ts.tasks[i].isCompleted && ts.tasks[i].id < ts.nextId
  {
    TaskStore(FreshHabits(0), 0, |HabitRewards|)
  }

  function AddTask(ts: TaskStore, kind: TaskKind, reward: int): (r: TaskStore)
    ensures r.tasks == ts.tasks + [Task(ts.nextId, kind, reward, false)]
    ensures r.totalEarned == ts.totalEarned && r.nextId == ts.nextId + 1
  {
    ts.(tasks := ts.tasks + [Task(ts.nextId, kind, reward, false)], nextId := ts.nextId + 1)
  }

  /** A fresh set of the daily habits replaces the list; earnings stay. */
  function ResetDailyTasks(ts: TaskStore): (r: TaskStore)
    ensures r.tasks == FreshHabits(ts.nextId) && r.totalEarned == ts.totalEarned
    ensures forall i :: 0 <= i < |r.tasks| ==> !r.tasks[i].isCompleted && ts.nextId <= r.tasks[i].id < r.nextId
  {
    ts.(tasks := FreshHabits(ts.nextId), nextId := ts.nextId + |HabitRewards|)
  }

  /** The first task with the id. */
  function FindTask(tasks: seq<Task>, id: nat): Option<nat> {
    FindFirst(tasks, TaskWithId(id))
  }

  function TaskWithId(id: nat): Task -> bool {
    (t: Task) => t.id == id
  }


  /** Every task with the id marked completed, the rest as they were. */
  function MarkCompleted(tasks: seq<Task>, id: nat): (r: seq<Task>)
    ensures |r| == |tasks|
    ensures forall i :: 0 <= i < |r| ==>
      r[i] == if tasks[i].id == id then tasks[i].(isCompleted := true) else tasks[i]
  {
    if |tasks| == 0 then []
    else [if tasks[0].id == id then tasks[0].(isCompleted := true) else tasks[0]]
         + MarkCompleted(tasks[1..], id)
  }

  /** Completes the first task with the id if it is still open: its reward
      goes into the game record's gold and into the task list's earnings. */
  function CompleteTask(g: GameRecord, ts: TaskStore, id: nat): (r: (GameRecord, TaskStore))
    ensures var k := FindTask(ts.tasks, id);
      && (k.None? || ts.tasks[k.value].isCompleted ==> r == (g, ts))
      && (k.Some? && !ts.tasks[k.value].isCompleted ==>
            var reward := ts.tasks[k.value].reward;
            && r.0 == g.(gold := g.gold + reward)
            && r.1.totalEarned == ts.totalEarned + reward
            && r.1.tasks == MarkCompleted(ts.tasks, id)
            && r.1.nextId == ts.nextId)
  {
    match FindTask(ts.tasks, id)
    case None => (g, ts)
    case Some(k) =>
      if ts.tasks[k].isCompleted then (g, ts)
      else
        var reward := ts.tasks[k].reward;
        (AddGold(g, reward),
         ts.(tasks := MarkCompleted(ts.tasks, id), totalEarned := ts.totalEarned + reward))
  }

  /** A task pays once: completing it again changes nothing. */
  lemma CompleteTaskOnce(g: GameRecord, ts: TaskStore, id: nat)
    ensures var r := CompleteTask(g, ts, id);
      CompleteTask(r.0, r.1, id) == r
  {
    var r := CompleteTask(g, ts, id);
    match FindTask(ts.tasks, id)
    case None =>
    case Some(k) =>
      var k2 := FindTask(r.1.tasks, id);
      assert r.1.tasks[k].id == id;
      assert k2.Some?;
      assert k2.value == k;
  }

  function TaskWithout(id: nat): Task -> bool {
    (t: Task) => t.id != id
  }

  /** Drops every task with the id and keeps the rest in order. */
  function RemoveTask(ts: TaskStore, id: nat): (r: TaskStore)
    ensures forall x :: x in r.tasks <==> x in ts.tasks && x.id != id
    ensures r.tasks == Filter(ts.tasks, TaskWithout(id))
    ensures r == ts.(tasks := r.tasks)
  {
    ts.(tasks := Filter(ts.tasks, TaskWithout(id)))
  }

  /** Removal works piecewise: on a list split in two it removes from each
      part and keeps the parts in order. */
  lemma RemoveTaskPiecewise(a: seq<Task>, b: seq<Task>, id: nat, earned: int, nextId: nat)
    ensures RemoveTask(TaskStore(a + b, earned, nextId), id).tasks
         == RemoveTask(TaskStore(a, earned, nextId), id).tasks + RemoveTask(TaskStore(b, earned, nextId), id).tasks
  {
    FilterAppend(a, b, TaskWithout(id));
  }

  /** Removing a task that is not in the list changes nothing. */
  lemma RemoveMissingTask(ts: TaskStore, id: nat)
    requires forall i :: 0 <= i < |ts.tasks| ==> ts.tasks[i].id != id
    ensures RemoveTask(ts, id) == ts
  {
    FilterKeepsAll(ts.tasks, TaskWithout(id));
  }
}

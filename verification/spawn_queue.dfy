/**
  The wave scheduler's queue: a wave's groups expanded into one list of
  (bug type, delay) entries, and the per-frame drain that spawns the due
  entries at the head of that list.
 */
module SpawnQueue {
  import opened Types
  import opened GameConfig

  /** One pending spawn, due `delay` ms after the wave started. */
  datatype SpawnEntry = SpawnEntry(bugType: BugType, delay: int)

  /** Entries `i, i+1, ..` of a group: entry `k` is due `spawnInterval * k` ms in. */
  function ExpandFrom(g: WaveGroup, i: nat): (q: seq<SpawnEntry>)
    ensures |q| == if g.count > i then g.count - i else 0
    ensures forall k :: 0 <= k < |q| ==> q[k] == SpawnEntry(g.bugType, g.spawnInterval * (i + k))
    decreases if g.count > i then g.count - i else 0
  {
    if i < g.count then [SpawnEntry(g.bugType, g.spawnInterval * i)] + ExpandFrom(g, i + 1)
    else []
  }

  function Expand(g: WaveGroup): seq<SpawnEntry> {
    ExpandFrom(g, 0)
  }

  function GroupSize(g: WaveGroup): nat {
    if g.count > 0 then g.count else 0
  }

  function TotalCount(groups: seq<WaveGroup>): nat {
    if |groups| == 0 then 0 else GroupSize(groups[0]) + TotalCount(groups[1..])
  }

  /** The groups' entries, group after group; the result is not sorted by delay. */
  function BuildQueue(groups: seq<WaveGroup>): (q: seq<SpawnEntry>)
    ensures |q| == TotalCount(groups)
  {
    if |groups| == 0 then [] else Expand(groups[0]) + BuildQueue(groups[1..])
  }

  /** Group `k`'s entries start after all entries of the groups before it,
      and entry `i` of group `k` is due `spawnInterval * i` ms in. */
  lemma {:induction false} QueueLayout(groups: seq<WaveGroup>, k: nat, i: nat)
    requires k < |groups| && i < groups[k].count
    ensures TotalCount(groups[..k]) + i < |BuildQueue(groups)|
    ensures BuildQueue(groups)[TotalCount(groups[..k]) + i]
         == SpawnEntry(groups[k].bugType, groups[k].spawnInterval * i)
  {
    if k == 0 {
      assert groups[..0] == [];
    } else {
      assert groups[..k][0] == groups[0];
      assert groups[..k][1..] == groups[1..][..k - 1];
      QueueLayout(groups[1..], k - 1, i);
    }
  }

  /** Spawns the due entries at the head of the queue: returns the spawned
      entries and what remains. */
  function Drain(queue: seq<SpawnEntry>, timer: real): (r: (seq<SpawnEntry>, seq<SpawnEntry>))
    ensures r.0 + r.1 == queue
    ensures forall i :: 0 <= i < |r.0| ==> r.0[i].delay as real <= timer
    ensures |r.1| == 0 || r.1[0].delay as real > timer
  {
    if |queue| > 0 && queue[0].delay as real <= timer then
      var rest := Drain(queue[1..], timer);
      assert [queue[0]] + rest.0 + rest.1 == [queue[0]] + queue[1..] == queue;
      ([queue[0]] + rest.0, rest.1)
    else ([], queue)
  }

  /** The spawned prefix is the longest prefix of due entries: an entry
      that is not yet due holds back everything behind it. */
  lemma DrainStopsAtFirstPending(queue: seq<SpawnEntry>, timer: real, j: nat)
    requires j < |queue| && queue[j].delay as real > timer
    ensures |Drain(queue, timer).0| <= j
  {
  }

  lemma {:induction false} DrainAllDue(queue: seq<SpawnEntry>, timer: real)
    requires forall i :: 0 <= i < |queue| ==> queue[i].delay as real <= timer
    ensures Drain(queue, timer) == (queue, [])
  {
    if |queue| > 0 {
      DrainAllDue(queue[1..], timer);
      assert [queue[0]] + queue[1..] == queue;
    }
  }

  /** Wave 1 of level 1: eight Typos due at 0, 1000, ..., 7000 ms. */
  lemma Wave1Queue()
    ensures var q := BuildQueue(LevelConfigs()[0].waves[0].groups);
      && |q| == 8
      && forall i :: 0 <= i < 8 ==> q[i] == SpawnEntry(Typo, 1000 * i)
  {
    var g := WaveGroup(Typo, 8, 1000);
    assert BuildQueue([g]) == Expand(g) + BuildQueue([]);
  }

  function Wave2Queue(): seq<SpawnEntry> {
    BuildQueue(LevelConfigs()[0].waves[1].groups)
  }

  lemma Wave2Layout()
    ensures |Wave2Queue()| == 13
    ensures forall i :: 0 <= i < 10 ==> Wave2Queue()[i] == SpawnEntry(Typo, 800 * i)
    ensures forall i :: 10 <= i < 13 ==> Wave2Queue()[i] == SpawnEntry(NullPointerException, 2000 * (i - 10))
  {
    var g1 := WaveGroup(Typo, 10, 800);
    var g2 := WaveGroup(NullPointerException, 3, 2000);
    var groups := [g1, g2];
    assert Level1Waves()[1].groups == groups;
    assert groups[1..] == [g2];
    assert BuildQueue([g2]) == Expand(g2) + BuildQueue([]);
    assert BuildQueue(groups) == Expand(g1) + Expand(g2);
  }

  /** In wave 2 of level 1 the three NullPointerExceptions come after the ten
      Typos in the queue. Although they are due at 0, 2000 and 4000 ms, none
      spawns before the last Typo is due at 7200 ms, and from then on all of
      them spawn in that same frame. */
  lemma Wave2Burst(timer: real)
    ensures timer < 7200.0 ==>
      forall i :: 0 <= i < |Drain(Wave2Queue(), timer).0| ==> Drain(Wave2Queue(), timer).0[i].bugType == Typo
    ensures timer >= 7200.0 ==> Drain(Wave2Queue(), timer) == (Wave2Queue(), [])
  {
    Wave2Layout();
    TyposHoldBack(Wave2Queue(), timer);
  }

  /** The wave-2 argument on any queue laid out like wave 2. */
  lemma TyposHoldBack(q: seq<SpawnEntry>, timer: real)
    requires |q| == 13
    requires forall i :: 0 <= i < 10 ==> q[i] == SpawnEntry(Typo, 800 * i)
    requires forall i :: 10 <= i < 13 ==> q[i] == SpawnEntry(NullPointerException, 2000 * (i - 10))
    ensures timer < 7200.0 ==> forall i :: 0 <= i < |Drain(q, timer).0| ==> Drain(q, timer).0[i].bugType == Typo
    ensures timer >= 7200.0 ==> Drain(q, timer) == (q, [])
  {
    if timer < 7200.0 {
      assert q[9].delay == 7200;
      DrainStopsAtFirstPending(q, timer, 9);
      var r := Drain(q, timer);
      assert forall i :: 0 <= i < |r.0| ==> r.0[i] == q[i];
    } else {
      assert forall i :: 0 <= i < |q| ==> q[i].delay <= 7200;
      DrainAllDue(q, timer);
    }
  }
}

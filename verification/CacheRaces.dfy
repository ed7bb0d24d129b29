// Single flight. A key has at most one build at a time unless an entry still being built was evicted, and then it may
// have two.
module CacheRaces {
  import opened Recency
  import opened Recorders
  import opened DesignCache
  import opened CacheProtocol
  import opened CacheSafety
  import opened CacheTheorems

  lemma RunGrows(sys: System, r: seq<State>, s: State)
    requires Run(sys, r) && Next(sys, r[|r| - 1], s)
    ensures Run(sys, r + [s])
  {
    forall i: nat | i + 1 < |r + [s]| ensures Steps(sys, r + [s], i) {
      if i + 1 < |r| {
        assert Steps(sys, r, i);
      }
    }
  }

  function Moved(s: State, tid: nat, sh: Shared, th: Thread): State {
    State(sh, s.threads[tid := th])
  }

  lemma ThreadMayMove(sys: System, s: State, tid: nat, sh: Shared, th: Thread)
    requires tid in s.threads && Act(sys, tid, s.sh, s.threads[tid], sh, th)
    ensures Next(sys, s, Moved(s, tid, sh, th))
  {
    assert ThreadStep(sys, s, Moved(s, tid, sh, th), tid);
  }

  // An idle thread that asks for a key not in the map becomes the builder of a new entry.
  lemma MissRuns(sys: System, r: seq<State>, tid: nat, key: Key) returns (longer: seq<State>)
    requires Sane(sys) && Run(sys, r) && tid in r[|r| - 1].threads && r[|r| - 1].threads[tid].phase.Idle?
    requires key != "" && key !in r[|r| - 1].sh.table.entries
    ensures Run(sys, longer) && |longer| == |r| + 2 && longer[..|r|] == r
    ensures var s, t := r[|r| - 1], longer[|r| + 1];
            && t.sh.table == Insert(s.sh.table, key, tid, s.sh.clock, sys.max) && t.sh.clock == s.sh.clock
            && t.threads.Keys == s.threads.Keys && (forall u | u in s.threads && u != tid :: t.threads[u] == s.threads[u])
            && Builds(t, tid, 0, s.sh.table.next)
  {
    var s := r[|r| - 1];
    var asking := Thread([], Asking(key), true, NewLog(s.sh));
    var asked := Moved(s, tid, s.sh, asking);
    assert Start(s.sh, s.threads[tid], s.sh, asking, key);
    ThreadMayMove(sys, s, tid, s.sh, asking);
    RunGrows(sys, r, asked);
    var sh := s.sh.(table := Insert(s.sh.table, key, tid, s.sh.clock, sys.max));
    var building := asking.(stack := [Frame(key, s.sh.table.next, [], map[])], phase := Restoring);
    assert Begin(sys, tid, s.sh, asking, sh, building);
    ThreadMayMove(sys, asked, tid, sh, building);
    longer := r + [asked] + [Moved(asked, tid, sh, building)];
    RunGrows(sys, r + [asked], Moved(asked, tid, sh, building));
  }

  lemma OldestIsNoKeeper(used: Ticks, tick: nat, max: nat, k: string, key: string)
    requires Distinct(used) && Bounded(used, tick) && |used| == max && Oldest(used, k) && key !in used
    ensures k !in Keepers(used[key := tick + 1], max)
  {
    var stamps := used[key := tick + 1];
    assert stamps.Keys == used.Keys + {key} && |used.Keys| == max;
    assert Younger(stamps, k) == stamps.Keys - {k};
  }

  // A miss on a full map evicts the oldest entry, whether or not it is ready.
  lemma FullMapLosesTheOldest(t: Table, max: nat, k: Key, key: Key, builder: nat, born: nat)
    requires Held(t) && |t.entries| == max > 0 && Oldest(t.used, k) && key !in t.entries && key != ""
    ensures k !in Insert(t, key, builder, born, max).entries
  {
    assert |t.used| == |t.used.Keys| == |t.entries.Keys|;
    OldestIsNoKeeper(t.used, t.tick, max, k, key);
    PlaceHolds(t, key, builder, born);
    EvictKeepsKeepers(Place(t, key, builder, born), max);
  }

  // Two entries under one key, both being built; the newer is the one in the map.
  ghost predicate TwoEntries(t: Table, k: Key, older: EntryId, newer: EntryId) {
    && older != newer && older in t.cells && newer in t.cells && k in t.entries && t.entries[k] == newer
    && t.cells[older].key == k == t.cells[newer].key && !t.cells[older].ready && !t.cells[newer].ready
  }

  ghost predicate FullOfBuilds(t: Table, max: nat, k: Key) {
    && |t.entries| == max && Oldest(t.used, k) && k in t.entries
    && t.entries[k] in t.cells && !t.cells[t.entries[k]].ready
  }

  lemma TwoMisses(t: Table, max: nat, k: Key, key: Key, u: nat, v: nat, born: nat)
    requires Held(t) && max > 0 && FullOfBuilds(t, max, k) && key !in t.entries && key != ""
    ensures var mid := Insert(t, key, u, born, max);
            && Held(mid) && k !in mid.entries
            && var now := Insert(mid, k, v, born, max);
               && TwoEntries(now, k, t.entries[k], mid.next) && now.cells[mid.next].builder == v
               && now.cells[t.entries[k]] == t.cells[t.entries[k]]
  {
    FullMapLosesTheOldest(t, max, k, key, u, born);
    InsertHolds(t, key, u, born, max);
    InsertHolds(Insert(t, key, u, born, max), k, v, born, max);
  }

  lemma IdleBuildsNothing(sys: System, s: State, tid: nat, id: EntryId)
    requires Inv(sys, s) && tid in s.threads && s.threads[tid].phase.Idle?
    requires id in s.sh.table.cells && !s.sh.table.cells[id].ready
    ensures s.sh.table.cells[id].builder != tid
  {
    assert Attended(s, id);
    assert ThreadInv(sys, s.sh, tid, s.threads[tid]);
  }

  ghost predicate Idle(s: State, tid: nat) {
    tid in s.threads && s.threads[tid].phase.Idle?
  }

  lemma FullAndIdle(sys: System, r: seq<State>, k: Key, v: nat)
    requires Sane(sys) && Run(sys, r) && FullOfBuilds(r[|r| - 1].sh.table, sys.max, k) && Idle(r[|r| - 1], v)
    ensures var t := r[|r| - 1].sh.table; Held(t) && t.cells[t.entries[k]].builder != v
  {
    var s := r[|r| - 1];
    RunKeepsInv(sys, r, |r| - 1);
    IdleBuildsNothing(sys, s, v, s.sh.table.entries[k]);
  }

  // Single flight is per entry and not per key. From any state where the map is full and its oldest entry is still being
  // built, and two more callers are there, a miss on another key and then one on the same key put the same key under a
  // second builder while the first is still at it.
  lemma TwoMayBuildOneKey(sys: System, r: seq<State>, k: Key, key: Key, u: nat, v: nat) returns (longer: seq<State>)
    requires Sane(sys) && Run(sys, r) && FullOfBuilds(r[|r| - 1].sh.table, sys.max, k)
    requires key != "" && key !in r[|r| - 1].sh.table.entries
    requires u != v && Idle(r[|r| - 1], u) && Idle(r[|r| - 1], v)
    ensures Run(sys, longer) && |longer| == |r| + 4 && longer[..|r|] == r
    ensures var was, now := r[|r| - 1].sh.table, longer[|r| + 3].sh.table;
            && TwoEntries(now, k, was.entries[k], was.next + 1)
            && now.cells[was.entries[k]].builder != now.cells[was.next + 1].builder == v
  {
    var s := r[|r| - 1];
    FullAndIdle(sys, r, k, v);
    TwoMisses(s.sh.table, sys.max, k, key, u, v, s.sh.clock);
    var mid := MissRuns(sys, r, u, key);
    longer := MissRuns(sys, mid, v, k);
    assert longer[..|r|] == longer[..|mid|][..|r|];
  }

  /* ---- a second build of a key always follows an eviction ---- */

  // A build that has left the map, or may have, and is about to tell those who wait.
  predicate Shutting(th: Thread, id: EntryId) {
    th.phase.Closing? && th.stack != [] && Top(th).id == id
  }

  ghost predicate InFlight(s: State, k: Key, id: EntryId) {
    && id in s.sh.table.cells && !s.sh.table.cells[id].ready && s.sh.table.cells[id].key == k
    && var u := s.sh.table.cells[id].builder;
       !(u in s.threads && Shutting(s.threads[u], id))
  }

  predicate Mapped(t: Table, k: Key, id: EntryId) {
    k in t.entries && t.entries[k] == id
  }

  // Every build of k in flight is the one the map holds.
  ghost predicate SingleFlight(s: State, k: Key) {
    forall id | InFlight(s, k, id) :: Mapped(s.sh.table, k, id)
  }

  // A miss that puts an entry out of the map while it is being built.
  ghost predicate Evicts(sys: System, tid: nat, sh: Shared, th: Thread, sh': Shared, th': Thread, k: Key) {
    && Begin(sys, tid, sh, th, sh', th') && k in sh.table.entries && k !in sh'.table.entries
    && sh.table.entries[k] in sh.table.cells && !sh.table.cells[sh.table.entries[k]].ready
  }

  ghost predicate EvictsUnready(sys: System, s: State, s': State, k: Key) {
    exists tid :: ThreadStep(sys, s, s', tid) && Evicts(sys, tid, s.sh, s.threads[tid], s'.sh, s'.threads[tid], k)
  }

  ghost predicate EvictsAt(sys: System, r: seq<State>, j: nat, k: Key) {
    j + 1 < |r| && EvictsUnready(sys, r[j], r[j + 1], k)
  }

  lemma BeginKeepsMapped(sys: System, tid: nat, sh: Shared, th: Thread, sh': Shared, th': Thread, k: Key, id: EntryId)
    requires Held(sh.table) && Begin(sys, tid, sh, th, sh', th') && !Evicts(sys, tid, sh, th, sh', th', k)
    requires Mapped(sh.table, k, id) && id in sh.table.cells && !sh.table.cells[id].ready
    ensures Mapped(sh'.table, k, id)
  {
  }

  lemma CallKeepsMapped(sys: System, tid: nat, sh: Shared, th: Thread, sh': Shared, th': Thread, k: Key, id: EntryId)
    requires Held(sh.table) && PhaseInv(sys, sh, th) && CallStep(sys, tid, sh, th, sh', th')
    requires !Evicts(sys, tid, sh, th, sh', th', k)
    requires Mapped(sh.table, k, id) && id in sh.table.cells && !sh.table.cells[id].ready
    ensures Mapped(sh'.table, k, id)
  {
    if Begin(sys, tid, sh, th, sh', th') {
      BeginKeepsMapped(sys, tid, sh, th, sh', th', k, id);
    }
  }

  lemma BuildKeepsMapped(sys: System, sh: Shared, th: Thread, sh': Shared, th': Thread, k: Key, id: EntryId)
    requires BuildStep(sys, sh, th, sh', th') && Mapped(sh.table, k, id)
    ensures Mapped(sh'.table, k, id) || Shutting(th', id)
  {
  }

  // A build in flight after a step was in flight before it, or is the one the step began.
  lemma StaysInFlight(sys: System, s: State, s': State, tid: nat, k: Key, id: EntryId)
    requires ThreadStep(sys, s, s', tid) && Held(s.sh.table) && InFlight(s', k, id) && id in s.sh.table.cells
    requires Moves(s.sh, s'.sh, tid)
    ensures InFlight(s, k, id)
  {
    var u := s.sh.table.cells[id].builder;
    assert CellMoves(s.sh.table.cells[id], s'.sh.table.cells[id], tid);
    if u == tid && Shutting(s.threads[tid], id) {
      ShuttingShuts(sys, tid, s.sh, s.threads[tid], s'.sh, s'.threads[tid], id);
    }
  }

  lemma ShuttingShuts(sys: System, tid: nat, sh: Shared, th: Thread, sh': Shared, th': Thread, id: EntryId)
    requires Act(sys, tid, sh, th, sh', th') && Shutting(th, id)
    ensures id in sh'.table.cells && sh'.table.cells[id].ready
  {
  }

  lemma BegunIsMapped(sys: System, tid: nat, sh: Shared, th: Thread, sh': Shared, th': Thread, id: EntryId)
    requires Sane(sys) && Held(sh.table) && PhaseInv(sys, sh, th) && Act(sys, tid, sh, th, sh', th')
    requires id in sh'.table.cells && id !in sh.table.cells
    ensures Mapped(sh'.table, sh'.table.cells[id].key, id)
  {
    assert Begin(sys, tid, sh, th, sh', th');
    InsertHolds(sh.table, th.phase.key, tid, sh.clock, sys.max);
  }

  lemma ThreadKeepsFlight(sys: System, s: State, s': State, tid: nat, k: Key, id: EntryId)
    requires Sane(sys) && Inv(sys, s) && ThreadStep(sys, s, s', tid) && SingleFlight(s, k) && InFlight(s', k, id)
    requires !EvictsUnready(sys, s, s', k)
    ensures Mapped(s'.sh.table, k, id)
  {
    var th, th' := s.threads[tid], s'.threads[tid];
    ReadyToAct(sys, s, tid);
    ActKeeps(sys, tid, s.sh, th, s'.sh, th');
    if id in s.sh.table.cells {
      StaysInFlight(sys, s, s', tid, k, id);
      assert !Shutting(th', id) by { NotMine(sys, s, s', tid, k, id); }
      if CallStep(sys, tid, s.sh, th, s'.sh, th') {
        CallKeepsMapped(sys, tid, s.sh, th, s'.sh, th', k, id);
      } else {
        BuildKeepsMapped(sys, s.sh, th, s'.sh, th', k, id);
      }
    } else {
      BegunIsMapped(sys, tid, s.sh, th, s'.sh, th', id);
    }
  }

  lemma NotMine(sys: System, s: State, s': State, tid: nat, k: Key, id: EntryId)
    requires InFlight(s', k, id) && tid in s'.threads && ThreadInv(sys, s'.sh, tid, s'.threads[tid])
    ensures !Shutting(s'.threads[tid], id)
  {
    var th := s'.threads[tid];
    if th.stack != [] {
      assert FrameInv(sys, s'.sh, tid, Top(th));
    }
  }

  lemma StepOfThreadKeepsFlight(sys: System, s: State, s': State, tid: nat, k: Key)
    requires Sane(sys) && Inv(sys, s) && ThreadStep(sys, s, s', tid) && SingleFlight(s, k)
    requires !EvictsUnready(sys, s, s', k)
    ensures SingleFlight(s', k)
  {
    forall id | InFlight(s', k, id) ensures Mapped(s'.sh.table, k, id) {
      ThreadKeepsFlight(sys, s, s', tid, k, id);
    }
  }

  // An edit or a cancellation: no thread moves, and nor does the table.
  ghost predicate Quiet(s: State, s': State) {
    && s'.sh.table == s.sh.table && s'.threads.Keys == s.threads.Keys
    && forall tid | tid in s.threads ::
         s'.threads[tid].phase == s.threads[tid].phase && s'.threads[tid].stack == s.threads[tid].stack
  }

  lemma ThreadOrQuiet(sys: System, s: State, s': State) returns (tid: nat)
    requires Next(sys, s, s')
    ensures ThreadStep(sys, s, s', tid) || Quiet(s, s')
  {
    if u :| ThreadStep(sys, s, s', u) {
      tid := u;
    } else {
      tid := 0;
    }
  }

  lemma QuietKeepsFlight(s: State, s': State, k: Key)
    requires SingleFlight(s, k) && Quiet(s, s')
    ensures SingleFlight(s', k)
  {
    forall id | InFlight(s', k, id) ensures Mapped(s'.sh.table, k, id) {
      assert InFlight(s, k, id);
    }
  }

  lemma StepKeepsFlight(sys: System, s: State, s': State, k: Key)
    requires Sane(sys) && Inv(sys, s) && Next(sys, s, s') && SingleFlight(s, k) && !EvictsUnready(sys, s, s', k)
    ensures SingleFlight(s', k)
  {
    var tid := ThreadOrQuiet(sys, s, s');
    if Quiet(s, s') {
      QuietKeepsFlight(s, s', k);
    } else {
      StepOfThreadKeepsFlight(sys, s, s', tid, k);
    }
  }

  lemma RunStepKeepsFlight(sys: System, r: seq<State>, i: nat, k: Key)
    requires Sane(sys) && Run(sys, r) && i + 1 < |r| && SingleFlight(r[i], k) && !EvictsAt(sys, r, i, k)
    ensures SingleFlight(r[i + 1], k)
  {
    RunKeepsInv(sys, r, i);
    assert Steps(sys, r, i);
    StepKeepsFlight(sys, r[i], r[i + 1], k);
  }

  lemma {:induction false} RunKeepsFlight(sys: System, r: seq<State>, i: nat, k: Key)
    requires Sane(sys) && Run(sys, r) && i < |r| && forall j: nat | j < i :: !EvictsAt(sys, r, j, k)
    ensures SingleFlight(r[i], k)
  {
    if i > 0 {
      RunKeepsFlight(sys, r, i - 1, k);
      RunStepKeepsFlight(sys, r, i - 1, k);
    }
  }

  // The thread is building k, and has not come to the point of telling those who wait.
  ghost predicate BuildsKey(s: State, tid: nat, p: nat, k: Key) {
    && tid in s.threads && p < |s.threads[tid].stack| && s.threads[tid].stack[p].key == k
    && !Shutting(s.threads[tid], s.threads[tid].stack[p].id)
  }

  lemma BuildIsInFlight(sys: System, s: State, tid: nat, p: nat, k: Key)
    requires AllThreadsInv(sys, s) && BuildsKey(s, tid, p, k)
    ensures InFlight(s, k, s.threads[tid].stack[p].id)
  {
    assert ThreadInv(sys, s.sh, tid, s.threads[tid]);
    assert FrameInv(sys, s.sh, tid, s.threads[tid].stack[p]);
  }

  // Single flight per key, up to evictions: while no entry of a key was evicted unready, the key has at most one build.
  lemma OneBuildPerKey(sys: System, r: seq<State>, i: nat, k: Key, t: nat, p: nat, u: nat, q: nat)
    requires Sane(sys) && Run(sys, r) && i < |r| && forall j: nat | j < i :: !EvictsAt(sys, r, j, k)
    requires BuildsKey(r[i], t, p, k) && BuildsKey(r[i], u, q, k)
    ensures t == u && p == q
  {
    RunKeepsInv(sys, r, i);
    RunKeepsFlight(sys, r, i, k);
    BuildIsInFlight(sys, r[i], t, p, k);
    BuildIsInFlight(sys, r[i], u, q, k);
    BuilderIsUnique(sys, r[i], t, p, u, q, r[i].threads[t].stack[p].id);
  }

  lemma EvictedStaysUnready(sys: System, tid: nat, sh: Shared, th: Thread, sh': Shared, th': Thread, k: Key)
    requires Sane(sys) && Held(sh.table) && PhaseInv(sys, sh, th) && Evicts(sys, tid, sh, th, sh', th', k)
    ensures k != "" && Held(sh'.table) && Unready(sh'.table, k, sh.table.entries[k])
  {
    InsertHolds(sh.table, th.phase.key, tid, sh.clock, sys.max);
  }

  predicate Unready(t: Table, k: Key, id: EntryId) {
    id in t.cells && t.cells[id].key == k && !t.cells[id].ready
  }

  lemma EvictedIsUnready(sys: System, s: State, s': State, k: Key)
    requires Sane(sys) && SharedAndThreads(sys, s) && EvictsUnready(sys, s, s', k)
    ensures k in s.sh.table.entries && k !in s'.sh.table.entries && k != "" && Held(s'.sh.table)
    ensures Unready(s'.sh.table, k, s.sh.table.entries[k])
  {
    var tid :| ThreadStep(sys, s, s', tid) && Evicts(sys, tid, s.sh, s.threads[tid], s'.sh, s'.threads[tid], k);
    assert ThreadInv(sys, s.sh, tid, s.threads[tid]);
    EvictedStaysUnready(sys, tid, s.sh, s.threads[tid], s'.sh, s'.threads[tid], k);
  }

  lemma SecondEntry(t: Table, k: Key, id: EntryId, v: nat, born: nat, max: nat)
    requires Held(t) && k !in t.entries && k != "" && max > 0 && Unready(t, k, id)
    ensures var now := Insert(t, k, v, born, max);
            && TwoEntries(now, k, id, t.next) && now.cells[t.next].builder == v && now.cells[id] == t.cells[id]
  {
    InsertHolds(t, k, v, born, max);
  }

  ghost predicate SharedAndThreads(sys: System, s: State) {
    SharedInv(sys, s.sh) && AllThreadsInv(sys, s)
  }

  lemma RunKeepsShared(sys: System, r: seq<State>, i: nat)
    requires Sane(sys) && Run(sys, r) && i < |r|
    ensures SharedAndThreads(sys, r[i])
  {
    RunKeepsInv(sys, r, i);
  }

  lemma EvictedInRun(sys: System, r: seq<State>, k: Key)
    requires Sane(sys) && Run(sys, r) && |r| > 1 && EvictsAt(sys, r, |r| - 2, k)
    ensures var was, t := r[|r| - 2].sh.table, r[|r| - 1].sh.table;
            k in was.entries && k !in t.entries && k != "" && Held(t) && Unready(t, k, was.entries[k])
  {
    RunKeepsShared(sys, r, |r| - 2);
    EvictedIsUnready(sys, r[|r| - 2], r[|r| - 1], k);
  }

  lemma IdleIsNoBuilder(sys: System, r: seq<State>, v: nat, id: EntryId)
    requires Sane(sys) && Run(sys, r) && Idle(r[|r| - 1], v)
    requires id in r[|r| - 1].sh.table.cells && !r[|r| - 1].sh.table.cells[id].ready
    ensures r[|r| - 1].sh.table.cells[id].builder != v
  {
    RunKeepsInv(sys, r, |r| - 1);
    IdleBuildsNothing(sys, r[|r| - 1], v, id);
  }

  // And an eviction is all it takes: once an entry of k was evicted unready, the next idle thread that asks for k is a
  // second builder of it.
  lemma EvictedIsBuiltAgain(sys: System, r: seq<State>, k: Key, v: nat) returns (longer: seq<State>)
    requires Sane(sys) && Run(sys, r) && |r| > 1 && EvictsAt(sys, r, |r| - 2, k) && Idle(r[|r| - 1], v)
    ensures Run(sys, longer) && |longer| == |r| + 2 && longer[..|r|] == r
    ensures var was, now := r[|r| - 2].sh.table, longer[|r| + 1].sh.table;
            && k in was.entries && k in now.entries && TwoEntries(now, k, was.entries[k], now.entries[k])
            && now.cells[was.entries[k]].builder != now.cells[now.entries[k]].builder == v
  {
    var s := r[|r| - 1];
    EvictedInRun(sys, r, k);
    var id := r[|r| - 2].sh.table.entries[k];
    IdleIsNoBuilder(sys, r, v, id);
    SecondEntry(s.sh.table, k, id, v, s.sh.clock, sys.max);
    longer := MissRuns(sys, r, v, k);
  }

  /* ---- such a run exists ---- */

  // The map holds the first n keys, in the order they were asked for, and all are still being built.
  ghost predicate Filled(t: Table, keys: seq<Key>, n: nat)
    requires n <= |keys|
  {
    && Held(t) && Describes(t.used, keys[..n])
    && forall i | 0 <= i < n :: keys[i] in t.entries && Unready(t, keys[i], t.entries[keys[i]])
  }

  ghost predicate DistinctKeys(keys: seq<Key>) {
    "" !in keys && forall i, j | 0 <= i < j < |keys| :: keys[i] != keys[j]
  }

  ghost predicate AllIdleFrom(s: State, tids: seq<nat>, n: nat) {
    forall i | n <= i < |tids| :: Idle(s, tids[i])
  }

  ghost predicate DistinctThreads(tids: seq<nat>) {
    forall i, j | 0 <= i < j < |tids| :: tids[i] != tids[j]
  }

  lemma InsertKeepsUnready(t: Table, k: Key, key: Key, tid: nat, born: nat, max: nat)
    requires Held(t) && k in Insert(t, key, tid, born, max).entries
    requires k != key ==> k in t.entries && Unready(t, k, t.entries[k])
    ensures var now := Insert(t, key, tid, born, max); Unready(now, k, now.entries[k])
  {
  }

  lemma FirstKeys(keys: seq<Key>, n: nat)
    requires n < |keys| && DistinctKeys(keys)
    ensures keys[n] !in keys[..n] && keys[..n] + [keys[n]] == keys[..n + 1] && keys[n] != ""
    ensures forall i | 0 <= i <= n :: keys[i] in keys[..n + 1]
  {
    forall i | 0 <= i <= n ensures keys[i] in keys[..n + 1] {
      assert keys[..n + 1][i] == keys[i];
    }
  }

  lemma InsertFills(t: Table, keys: seq<Key>, n: nat, tid: nat, born: nat, max: nat)
    requires n < |keys| && n < max && Filled(t, keys, n) && DistinctKeys(keys)
    ensures keys[n] !in t.entries && Filled(Insert(t, keys[n], tid, born, max), keys, n + 1)
  {
    FirstKeys(keys, n);
    assert keys[n] !in t.used;
    InsertKeepsTheYoungest(t, keys[n], tid, born, max, keys[..n]);
    InsertedFills(t, Insert(t, keys[n], tid, born, max), keys, n, tid, born, max);
  }

  lemma InsertedFills(t: Table, now: Table, keys: seq<Key>, n: nat, tid: nat, born: nat, max: nat)
    requires n < |keys| && Filled(t, keys, n) && Held(now) && now == Insert(t, keys[n], tid, born, max)
    requires Describes(now.used, keys[..n + 1]) && forall i | 0 <= i <= n :: keys[i] in keys[..n + 1]
    ensures Filled(now, keys, n + 1)
  {
    forall i | 0 <= i < n + 1 ensures keys[i] in now.entries && Unready(now, keys[i], now.entries[keys[i]]) {
      assert keys[i] in now.used;
      InsertKeepsUnready(t, keys[i], keys[n], tid, born, max);
    }
  }

  lemma MissFills(sys: System, r: seq<State>, keys: seq<Key>, tids: seq<nat>, n: nat) returns (longer: seq<State>)
    requires Sane(sys) && Run(sys, r) && n < |keys| && n < |tids| && n < sys.max
    requires Filled(r[|r| - 1].sh.table, keys, n) && AllIdleFrom(r[|r| - 1], tids, n)
    requires DistinctKeys(keys) && DistinctThreads(tids)
    ensures Run(sys, longer) && longer != [] && longer[0] == r[0]
    ensures Filled(longer[|longer| - 1].sh.table, keys, n + 1) && AllIdleFrom(longer[|longer| - 1], tids, n + 1)
  {
    var s := r[|r| - 1];
    assert Idle(s, tids[n]);
    InsertFills(s.sh.table, keys, n, tids[n], s.sh.clock, sys.max);
    longer := MissRuns(sys, r, tids[n], keys[n]);
    assert longer[0] == longer[..|r|][0];
  }

  lemma {:induction false} MissesFill(sys: System, s: State, keys: seq<Key>, tids: seq<nat>, n: nat) returns (r: seq<State>)
    requires Sane(sys) && Init(sys, s) && n <= |keys| && n <= |tids| && n <= sys.max
    requires AllIdleFrom(s, tids, 0) && DistinctKeys(keys) && DistinctThreads(tids)
    ensures Run(sys, r) && r[0] == s
    ensures Filled(r[|r| - 1].sh.table, keys, n) && AllIdleFrom(r[|r| - 1], tids, n)
  {
    if n == 0 {
      r := [s];
    } else {
      r := MissesFill(sys, s, keys, tids, n - 1);
      r := MissFills(sys, r, keys, tids, n - 1);
    }
  }

  lemma FilledIsFull(t: Table, keys: seq<Key>, max: nat)
    requires 0 < max <= |keys| && Filled(t, keys, max)
    ensures FullOfBuilds(t, max, keys[0])
  {
    assert keys[..max][0] == keys[0];
    HeadIsOldest(t.used, keys[..max]);
    DescribedListLength(t.used, keys[..max]);
    assert |t.entries| == |t.entries.Keys| == |t.used.Keys| == |t.used|;
  }

  lemma FilledMisses(t: Table, keys: seq<Key>, max: nat)
    requires |keys| == max + 1 && Filled(t, keys, max) && DistinctKeys(keys)
    ensures keys[max] !in t.entries
  {
    assert keys[max] !in t.used;
  }

  // From any fresh process, whatever its limit, enough callers bring two builds of one key about.
  lemma TwoBuildsAreReached(sys: System, s: State, keys: seq<Key>, tids: seq<nat>) returns (r: seq<State>, older: EntryId)
    requires Sane(sys) && Init(sys, s) && |keys| == sys.max + 1 && |tids| == sys.max + 2
    requires AllIdleFrom(s, tids, 0) && DistinctKeys(keys) && DistinctThreads(tids)
    ensures Run(sys, r) && r[0] == s
    ensures var now := r[|r| - 1].sh.table;
            && keys[0] in now.entries && TwoEntries(now, keys[0], older, now.entries[keys[0]])
            && now.cells[older].builder != now.cells[now.entries[keys[0]]].builder
  {
    var full := MissesFill(sys, s, keys, tids, sys.max);
    var t := full[|full| - 1].sh.table;
    FilledIsFull(t, keys, sys.max);
    FilledMisses(t, keys, sys.max);
    assert Idle(full[|full| - 1], tids[sys.max]) && Idle(full[|full| - 1], tids[sys.max + 1]);
    r := TwoMayBuildOneKey(sys, full, keys[0], keys[sys.max], tids[sys.max], tids[sys.max + 1]);
    older := t.entries[keys[0]];
    assert r[0] == r[..|full|][0];
  }
}

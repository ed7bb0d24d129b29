// The design cache: what it keeps, what a build is, and the critical sections that run under its lock.
module DesignCache {
  import opened Recency
  import opened Recorders

  type Key = string
  type Content = string
  type Value = string
  type EntryId = nat

  datatype Failure = Canceled | Broken(why: string) | NotKept
  datatype Outcome = Ok(v: Value) | Err(e: Failure)

  // What a build does next, given the answers it has had so far: open a file, use another cached value, or finish.
  datatype Question = Done(v: Value) | Fail(why: string) | Open(n: Name) | Use(k: Key)

  // The parts of the system the cache takes as given. A build of key k is deterministic: ask(k, answers) is its next
  // move, it asks at most limit(k) questions, and it only uses keys of a lower level (a model uses a design, a design
  // uses a parse). content is what a file holds under a stamp. kept says which keys the persistent tier may hold. spared
  // says that no edit changes what a file holds between the two looks a fingerprint takes at it (see Spares); where it is
  // false edits are free, and nothing is claimed of what fingerprints vouch for.
  datatype System = System(
    ask: (Key, seq<string>) -> Question,
    level: Key -> nat,
    limit: Key -> nat,
    content: (Name, Stamp) -> Content,
    kept: Key -> bool,
    max: nat,
    spared: bool)

  ghost predicate Sane(sys: System) {
    && sys.max > 0
    && forall k, h :: sys.ask(k, h).Use? ==> sys.ask(k, h).k != "" && sys.level(sys.ask(k, h).k) < sys.level(k)
  }

  // What every file holds while the stamps are files.
  ghost function View(sys: System, files: Files): Name -> Content {
    n => sys.content(n, At(files, n))
  }

  const GaveUp := Err(Broken("asked too much"))

  // The build of k, continued from the answers it has had, over file contents c that do not change.
  ghost function Eval(sys: System, k: Key, answers: seq<string>, c: Name -> Content): Outcome
    decreases sys.level(k), sys.limit(k) - |answers|
  {
    if |answers| >= sys.limit(k) then GaveUp
    else
      match sys.ask(k, answers)
      case Done(v) => Ok(v)
      case Fail(why) => Err(Broken(why))
      case Open(n) => Eval(sys, k, answers + [c(n)], c)
      case Use(k') =>
        if sys.level(k') >= sys.level(k) then GaveUp
        else
          match Eval(sys, k', [], c)
          case Ok(v) => Eval(sys, k, answers + [v], c)
          case Err(e) => Err(e)
  }

  // A fresh read of k, from the files as they are.
  ghost function Fresh(sys: System, k: Key, files: Files): Outcome {
    Eval(sys, k, [], View(sys, files))
  }

  /* ---- the table under the lock ---- */

  datatype Cell = Cell(key: Key, builder: nat, born: nat, ready: bool, res: Outcome, touched: Touched)

  // entries is the map callers look keys up in, and used the stamp of each entry in it. cells holds every entry ever
  // made, by identity, since a caller may hold an entry that the map has dropped.
  datatype Table = Table(
    entries: map<Key, EntryId>, used: Ticks, cells: map<EntryId, Cell>, next: EntryId, tick: nat)

  ghost predicate Held(t: Table) {
    && (forall id | id in t.cells :: id < t.next)
    && (forall k | k in t.entries :: k != "" && t.entries[k] in t.cells && t.cells[t.entries[k]].key == k)
    && t.used.Keys == t.entries.Keys
    && Distinct(t.used)
    && Bounded(t.used, t.tick)
  }

  function Bump(t: Table, k: Key): Table
    requires k in t.entries
  {
    t.(used := t.used[k := t.tick + 1], tick := t.tick + 1)
  }

  function Lose(t: Table, k: Key): Table {
    t.(entries := t.entries - {k}, used := t.used - {k})
  }

  // Dropping an entry is guarded by its identity, so a caller never drops one that replaced the entry it saw.
  function Drop(t: Table, k: Key, id: EntryId): Table {
    if k in t.entries && t.entries[k] == id then Lose(t, k) else t
  }

  function Shut(t: Table, id: EntryId, res: Outcome, touched: Touched): Table
    requires id in t.cells
  {
    t.(cells := t.cells[id := t.cells[id].(ready := true, res := res, touched := touched)])
  }

  // Bring the table within its limit: an entry stays when fewer than max entries were used after it.
  ghost function Evict(t: Table, max: nat): Table {
    var keepers := Keepers(t.used, max);
    t.(entries := map k | k in t.entries && k in keepers :: t.entries[k],
       used := map k | k in t.used && k in keepers :: t.used[k])
  }

  function Place(t: Table, k: Key, builder: nat, born: nat): Table {
    Table(t.entries[k := t.next], t.used[k := t.tick + 1],
          t.cells[t.next := Cell(k, builder, born, false, Err(NotKept), map[])], t.next + 1, t.tick + 1)
  }

  // A miss: a new entry, not ready, is the youngest, and the table is brought back within its limit.
  ghost function Insert(t: Table, k: Key, builder: nat, born: nat, max: nat): Table {
    Evict(Place(t, k, builder, born), max)
  }

  /* ---- the table refines a recency list ---- */

  lemma EvictKeepsKeepers(t: Table, max: nat)
    requires Held(t)
    ensures Held(Evict(t, max))
    ensures Evict(t, max).used.Keys == Evict(t, max).entries.Keys == Keepers(t.used, max)
  {
  }

  lemma EvictKeepsTheYoungest(t: Table, max: nat, order: seq<string>)
    requires Held(t) && Describes(t.used, order)
    ensures Held(Evict(t, max)) && Describes(Evict(t, max).used, Youngest(order, max))
    ensures |Evict(t, max).entries| <= max
  {
    EvictKeepsKeepers(t, max);
    KeepersAreYoung(t.used, order, max);
    TrimmingDescribes(t.used, order, max, Evict(t, max).used);
    assert |Evict(t, max).entries| == |Evict(t, max).entries.Keys|;
  }

  lemma BumpMovesToYoungEnd(t: Table, k: Key, order: seq<string>)
    requires Held(t) && k in t.entries && Describes(t.used, order)
    ensures Held(Bump(t, k)) && Describes(Bump(t, k).used, Without(order, k) + [k])
  {
    StampMovesToYoungEnd(t.used, order, k, t.tick);
  }

  lemma PlaceAppends(t: Table, k: Key, builder: nat, born: nat, order: seq<string>)
    requires Held(t) && k !in t.entries && k != "" && Describes(t.used, order)
    ensures Held(Place(t, k, builder, born)) && Describes(Place(t, k, builder, born).used, order + [k])
  {
    NewStampAppends(t.used, order, k, t.tick);
  }

  lemma InsertKeepsTheYoungest(t: Table, k: Key, builder: nat, born: nat, max: nat, order: seq<string>)
    requires Held(t) && k !in t.entries && k != "" && max > 0 && Describes(t.used, order)
    ensures Held(Insert(t, k, builder, born, max)) && |Insert(t, k, builder, born, max).entries| <= max
    ensures Describes(Insert(t, k, builder, born, max).used, Youngest(order + [k], max))
    ensures k in Insert(t, k, builder, born, max).entries
    ensures Insert(t, k, builder, born, max).entries[k] == t.next
  {
    var p := Place(t, k, builder, born);
    PlaceAppends(t, k, builder, born, order);
    EvictKeepsTheYoungest(p, max, order + [k]);
    NewestSurvives(order, k, max);
    assert k in Evict(p, max).used;
  }

  lemma PlaceHolds(t: Table, k: Key, builder: nat, born: nat)
    requires Held(t) && k !in t.entries && k != ""
    ensures Held(Place(t, k, builder, born))
  {
    var order := ListExists(t.used);
    PlaceAppends(t, k, builder, born, order);
  }

  lemma InsertHolds(t: Table, k: Key, builder: nat, born: nat, max: nat)
    requires Held(t) && k !in t.entries && k != "" && max > 0
    ensures Held(Insert(t, k, builder, born, max)) && |Insert(t, k, builder, born, max).entries| <= max
    ensures k in Insert(t, k, builder, born, max).entries
    ensures Insert(t, k, builder, born, max).entries[k] == t.next
  {
    var order := ListExists(t.used);
    InsertKeepsTheYoungest(t, k, builder, born, max, order);
  }

  lemma EvictIdle(t: Table, max: nat)
    requires Held(t) && |t.entries| <= max
    ensures Evict(t, max) == t
  {
    assert |t.entries.Keys| == |t.used.Keys|;
    KeepersWithinLimit(t.used, max);
    assert Evict(t, max).used == t.used && Evict(t, max).entries == t.entries;
  }

  lemma EvictLosesTheOldest(t: Table, max: nat, k: Key)
    requires Held(t) && |t.entries| > max && Oldest(t.used, k)
    ensures Held(Lose(t, k)) && |Lose(t, k).entries| == |t.entries| - 1
    ensures Evict(Lose(t, k), max) == Evict(t, max)
  {
    assert (t.entries - {k}).Keys == t.entries.Keys - {k};
    assert |t.entries.Keys| == |t.used.Keys|;
    KeepersWithoutTheOldest(t.used, max, k);
    SameKeepers(Lose(t, k), t, max);
  }

  lemma SameKeepers(a: Table, b: Table, max: nat)
    requires a == b.(entries := a.entries, used := a.used)
    requires a.used.Keys == a.entries.Keys && b.used.Keys == b.entries.Keys
    requires forall k | k in a.used :: k in b.used && a.used[k] == b.used[k] && a.entries[k] == b.entries[k]
    requires Keepers(a.used, max) == Keepers(b.used, max)
    ensures Evict(a, max) == Evict(b, max)
  {
    assert forall k | k in Keepers(b.used, max) :: k in Keepers(a.used, max) && k in a.used;
    assert Evict(a, max).used == Evict(b, max).used;
    assert Evict(a, max).entries == Evict(b, max).entries;
  }

  lemma BumpHolds(t: Table, k: Key)
    requires Held(t) && k in t.entries
    ensures Held(Bump(t, k))
  {
  }

  lemma DropHolds(t: Table, k: Key, id: EntryId)
    requires Held(t)
    ensures Held(Drop(t, k, id)) && |Drop(t, k, id).entries| <= |t.entries|
  {
    if k in t.entries {
      assert (t.entries - {k}).Keys == t.entries.Keys - {k};
    }
  }

  lemma ShutHolds(t: Table, id: EntryId, res: Outcome, touched: Touched)
    requires Held(t) && id in t.cells
    ensures Held(Shut(t, id, res, touched))
  {
  }

  /* ---- the lock's critical sections ---- */

  // What one pass through the lock tells a caller: the cache is off for this key, someone's entry is there to wait
  // for, or the caller is now the builder of a new entry.
  datatype Claim = Bypass | Joined(id: EntryId) | Building(id: EntryId)

  class Cache {
    const max: int
    var entries: map<Key, EntryId>
    var used: Ticks
    var cells: map<EntryId, Cell>
    var next: EntryId
    var tick: nat

    ghost function Now(): Table
      reads this
    {
      Table(entries, used, cells, next, tick)
    }

    ghost predicate Valid()
      reads this
    {
      Held(Now()) && (max > 0 ==> |entries| <= max) && (max <= 0 ==> entries == map[])
    }

    constructor (max: int)
      ensures Valid() && this.max == max
      ensures Now() == Table(map[], map[], map[], 0, 0)
    {
      this.max := max;
      entries, used, cells, next, tick := map[], map[], map[], 0, 0;
    }

    method Use(key: Key)
      requires Valid() && key in entries
      modifies this`used, this`tick
      ensures Valid() && Now() == Bump(old(Now()), key)
    {
      ghost var was := Now();
      BumpHolds(was, key);
      tick, used := tick + 1, used[key := tick + 1];
      assert Now() == Bump(was, key);
    }

    // The top of getPersisted's loop, up to the unlock.
    method Ask(key: Key, builder: nat, born: nat) returns (c: Claim)
      requires Valid()
      modifies this
      ensures Valid()
      ensures max <= 0 || key == "" ==> c == Bypass && Now() == old(Now())
      ensures max > 0 && key != "" && key in old(entries) ==>
                c == Joined(old(entries)[key]) && Now() == Bump(old(Now()), key)
      ensures max > 0 && key != "" && key !in old(entries) ==>
                && c == Building(old(next))
                && Now() == Insert(old(Now()), key, builder, born, max)
                && key in entries && entries[key] == old(next)
    {
      if max <= 0 || key == "" {
        return Bypass;
      }
      if key in entries {
        Use(key);
        return Joined(entries[key]);
      }
      c := Building(next);
      Begin(key, builder, born);
    }

    method Begin(key: Key, builder: nat, born: nat)
      requires Valid() && max > 0 && key != "" && key !in entries
      modifies this
      ensures Valid() && Now() == Insert(old(Now()), key, builder, born, max)
      ensures key in entries && entries[key] == old(next)
    {
      ghost var before := Now();
      tick := tick + 1;
      entries, used := entries[key := next], used[key := tick];
      cells := cells[next := Cell(key, builder, born, false, Err(NotKept), map[])];
      next := next + 1;
      assert Now() == Place(before, key, builder, born);
      PlaceHolds(before, key, builder, born);
      InsertHolds(before, key, builder, born, max);
      EvictOver();
    }

    method EvictOver()
      requires Held(Now()) && max > 0
      modifies this`entries, this`used
      ensures Valid() && Now() == Evict(old(Now()), max)
    {
      while |entries| > max
        invariant Held(Now())
        invariant Evict(Now(), max) == Evict(old(Now()), max)
        decreases |entries|
      {
        EvictOne();
      }
      EvictIdle(Now(), max);
    }

    method EvictOne()
      requires Held(Now()) && |entries| > max > 0
      modifies this`entries, this`used
      ensures Held(Now()) && |entries| < |old(entries)|
      ensures Evict(Now(), max) == Evict(old(Now()), max)
    {
      ghost var was := Now();
      var oldest := OldestKey(used);
      EvictLosesTheOldest(was, max, oldest);
      entries, used := entries - {oldest}, used - {oldest};
      assert Now() == Lose(was, oldest);
    }

    // peek's pass through the lock.
    method Look(key: Key) returns (found: bool, id: EntryId)
      requires Valid()
      modifies this`used, this`tick
      ensures Valid()
      ensures found == (max > 0 && key != "" && key in entries)
      ensures found ==> id == entries[key] && Now() == Bump(old(Now()), key)
      ensures !found ==> Now() == old(Now())
    {
      if max <= 0 || key == "" || key !in entries {
        return false, 0;
      }
      Use(key);
      return true, entries[key];
    }

    method Remove(key: Key, id: EntryId)
      requires Valid()
      modifies this`entries, this`used
      ensures Valid() && Now() == Drop(old(Now()), key, id)
    {
      ghost var was := Now();
      DropHolds(was, key, id);
      if key in entries && entries[key] == id {
        entries, used := entries - {key}, used - {key};
      }
      assert Now() == Drop(was, key, id);
    }

    method Close(id: EntryId, res: Outcome, touched: Touched)
      requires Valid() && id in cells
      modifies this`cells
      ensures Valid() && Now() == Shut(old(Now()), id, res, touched)
    {
      ghost var was := Now();
      ShutHolds(was, id, res, touched);
      cells := cells[id := cells[id].(ready := true, res := res, touched := touched)];
      assert Now() == Shut(was, id, res, touched);
    }
  }
}

// A host's snapshots (service/snapshot.go): a registry bounded by least recent use, and the operations that ingest,
// update and ask for snapshots in it.
module Snapshots {
  import opened Recency
  import opened Recorders

  // What a client asks to be read. A snapshot holds the definition it was read from.
  datatype Definition = Definition(uri: string, boardUri: string, geometryUri: string, asNamed: bool, overlay: string,
                                   files: seq<string>, flattenHierarchy: bool)

  // A held snapshot, and the recorder of what every question about it read. Recorders are known by identity: a question
  // keeps the one it began with when the snapshot is replaced.
  type RecorderId = nat
  datatype Entry = Entry(def: Definition, rec: RecorderId)

  datatype Refusal =
    | NoName | BadId | AlreadyExists | Unreadable | NotHeld | Stale | NotAField(path: string)

  datatype Result<T> = Ok(value: T) | Err(why: Refusal)

  /* ---- the registry ---- */

  datatype Registry = Registry(m: map<string, Entry>, used: Ticks, tick: nat)

  ghost predicate Held(g: Registry, max: nat) {
    && g.used.Keys == g.m.Keys && |g.m| <= max && "" !in g.m
    && Distinct(g.used) && Bounded(g.used, g.tick)
  }

  // Asking for a snapshot marks it as used.
  function Asked(g: Registry, name: string): Registry {
    if name in g.m then g.(used := g.used[name := g.tick + 1], tick := g.tick + 1) else g
  }

  // Storing a snapshot marks it as used, and lets the least recently used go past the limit.
  ghost function Stored(g: Registry, name: string, e: Entry, max: nat): Registry {
    var all, stamps := g.m[name := e], g.used[name := g.tick + 1];
    Registry(Only(all, Keepers(stamps, max)), Only(stamps, Keepers(stamps, max)), g.tick + 1)
  }

  lemma AskedHolds(g: Registry, name: string, max: nat)
    requires Held(g, max)
    ensures Held(Asked(g, name), max) && Asked(g, name).m == g.m
  {
  }

  function Deleted(g: Registry, name: string): Registry {
    g.(m := g.m - {name}, used := g.used - {name})
  }

  lemma DeletedHolds(g: Registry, name: string, max: nat)
    requires Held(g, max)
    ensures Held(Deleted(g, name), max)
    ensures forall k | k in Deleted(g, name).m :: k in g.m && Deleted(g, name).m[k] == g.m[k]
  {
    var left := g.m - {name};
    assert left.Keys == g.m.Keys - {name} == (g.used - {name}).Keys;
    assert |left| == |left.Keys| && |g.m| == |g.m.Keys|;
    SmallerSet(left.Keys, g.m.Keys);
  }

  lemma RestampIsWithin(used: Ticks, name: string, tick: nat, max: nat)
    requires name in used && |used| <= max
    ensures Keepers(used[name := tick], max) == used.Keys
  {
    var stamps := used[name := tick];
    assert stamps.Keys == used.Keys && |stamps| == |stamps.Keys| && |used| == |used.Keys|;
    KeepersWithinLimit(stamps, max);
  }

  lemma StampsOf(used: Ticks, name: string, tick: nat, max: nat)
    requires |used| <= max && Distinct(used) && Bounded(used, tick) && max > 0
    ensures var keepers := Keepers(used[name := tick + 1], max);
            && name in keepers && |keepers| <= max
            && (name in used || |used| < max ==> keepers == used.Keys + {name})
  {
    if name in used {
      RestampIsWithin(used, name, tick + 1, max);
      assert |used.Keys| == |used| && used.Keys + {name} == used.Keys;
    } else {
      KeepersAfterNew(used, name, tick, max);
    }
  }

  lemma StampStaysDistinct(used: Ticks, name: string, tick: nat, kept: Ticks)
    requires Distinct(used) && Bounded(used, tick)
    requires forall k | k in kept :: k in used[name := tick + 1] && kept[k] == used[name := tick + 1][k]
    ensures Distinct(kept) && Bounded(kept, tick + 1)
  {
  }

  // What is left after storing, key by key.
  lemma StoredParts(g: Registry, name: string, e: Entry, max: nat)
    requires g.used.Keys == g.m.Keys
    ensures var stamps, t := g.used[name := g.tick + 1], Stored(g, name, e, max);
            && t.m.Keys == t.used.Keys == Keepers(stamps, max)
            && (forall k | k in t.used :: k in stamps && t.used[k] == stamps[k])
            && (forall k | k in t.m :: k in g.m[name := e] && t.m[k] == g.m[name := e][k])
  {
    var stamps := g.used[name := g.tick + 1];
    assert Keepers(stamps, max) <= stamps.Keys == g.m[name := e].Keys;
  }

  lemma OnlyAll<T>(m: map<string, T>, keys: set<string>)
    requires keys == m.Keys
    ensures Only(m, keys) == m
  {
  }

  lemma OnlyKeepers(m: map<string, Entry>, name: string, e: Entry, keepers: set<string>, max: nat)
    requires keepers <= m.Keys + {name} && name in keepers && |keepers| <= max
    requires name in m || |m| < max ==> keepers == m.Keys + {name}
    ensures var t := Only(m[name := e], keepers);
            name in t && t[name] == e && |t| <= max && (name in m || |m| < max ==> t == m[name := e])
  {
    var t := Only(m[name := e], keepers);
    assert t.Keys == keepers;
    assert |t| == |t.Keys|;
  }

  lemma StoredIsWithin(m: map<string, Entry>, used: Ticks, tick: nat, name: string, e: Entry, keepers: set<string>,
                       max: nat)
    requires used.Keys == m.Keys && |m| <= max && max > 0 && Distinct(used) && Bounded(used, tick)
    requires keepers == Keepers(used[name := tick + 1], max)
    ensures var t := Only(m[name := e], keepers);
            name in t && t[name] == e && |t| <= max && (name in m || |m| < max ==> t == m[name := e])
  {
    SameSize(used, m);
    StampsOf(used, name, tick, max);
    KeepersAreStamped(used[name := tick + 1], max);
    OnlyKeepers(m, name, e, keepers, max);
  }

  lemma SameSize(used: Ticks, m: map<string, Entry>)
    requires used.Keys == m.Keys
    ensures |used| == |m|
  {
    assert |used| == |used.Keys| && |m| == |m.Keys|;
  }

  lemma KeepersAreStamped(used: Ticks, max: nat)
    ensures Keepers(used, max) <= used.Keys
  {
  }

  lemma StoredFits(g: Registry, name: string, e: Entry, max: nat)
    requires g.used.Keys == g.m.Keys && |g.m| <= max && max > 0 && Distinct(g.used) && Bounded(g.used, g.tick)
    ensures var t := Stored(g, name, e, max).m;
            name in t && t[name] == e && |t| <= max && (name in g.m || |g.m| < max ==> t == g.m[name := e])
  {
    StoredIsWithin(g.m, g.used, g.tick, name, e, Keepers(g.used[name := g.tick + 1], max), max);
  }

  lemma StoredStamps(g: Registry, name: string, e: Entry, max: nat)
    requires g.used.Keys == g.m.Keys && "" !in g.m && name != "" && Distinct(g.used) && Bounded(g.used, g.tick)
    ensures var t := Stored(g, name, e, max);
            t.used.Keys == t.m.Keys && "" !in t.m && Distinct(t.used) && Bounded(t.used, t.tick)
  {
    StoredParts(g, name, e, max);
    StampStaysDistinct(g.used, name, g.tick, Stored(g, name, e, max).used);
  }

  // Storing keeps the limit, keeps what was stored, and loses nothing that fits.
  lemma StoredHolds(g: Registry, name: string, e: Entry, max: nat)
    requires Held(g, max) && max > 0 && name != ""
    ensures Held(Stored(g, name, e, max), max)
    ensures name in Stored(g, name, e, max).m && Stored(g, name, e, max).m[name] == e
    ensures name in g.m || |g.m| < max ==> Stored(g, name, e, max).m == g.m[name := e]
  {
    StoredFits(g, name, e, max);
    StoredStamps(g, name, e, max);
  }

  // The registry is a recency list: asking and storing move a name to the young end, and past the limit the head goes.
  lemma AskedMovesToYoungEnd(g: Registry, order: seq<string>, name: string)
    requires Describes(g.used, order) && Bounded(g.used, g.tick) && name in g.m
    ensures Describes(Asked(g, name).used, Without(order, name) + [name])
  {
    StampMovesToYoungEnd(g.used, order, name, g.tick);
  }

  lemma StoredKeepsTheYoungest(g: Registry, order: seq<string>, name: string, e: Entry, max: nat)
    requires Describes(g.used, order) && Bounded(g.used, g.tick) && g.used.Keys == g.m.Keys
    ensures Describes(Stored(g, name, e, max).used, Youngest(Without(order, name) + [name], max))
  {
    StampMovesToYoungEnd(g.used, order, name, g.tick);
    TrimmedTo(g, name, e, max, Without(order, name) + [name]);
  }

  lemma TrimmedTo(g: Registry, name: string, e: Entry, max: nat, list: seq<string>)
    requires g.used.Keys == g.m.Keys && Describes(g.used[name := g.tick + 1], list)
    ensures Describes(Stored(g, name, e, max).used, Youngest(list, max))
  {
    StoredParts(g, name, e, max);
    TrimmingDescribes(g.used[name := g.tick + 1], list, max, Stored(g, name, e, max).used);
  }

  /* ---- updating a definition ---- */

  const FIELDS := {"uri", "board_uri", "geometry_uri", "as_named", "overlay", "files", "flatten_hierarchy"}

  function SetField(def: Definition, next: Definition, path: string): Option<Definition> {
    if path == "uri" then Some(def.(uri := next.uri))
    else if path == "board_uri" then Some(def.(boardUri := next.boardUri))
    else if path == "geometry_uri" then Some(def.(geometryUri := next.geometryUri))
    else if path == "as_named" then Some(def.(asNamed := next.asNamed))
    else if path == "overlay" then Some(def.(overlay := next.overlay))
    else if path == "files" then Some(def.(files := next.files))
    else if path == "flatten_hierarchy" then Some(def.(flattenHierarchy := next.flattenHierarchy))
    else None
  }

  datatype Option<T> = None | Some(value: T)

  // The definition with the fields a mask names taken from next, and the others as they were.
  function Merged(def: Definition, next: Definition, paths: set<string>): Definition {
    Definition(
      if "uri" in paths then next.uri else def.uri,
      if "board_uri" in paths then next.boardUri else def.boardUri,
      if "geometry_uri" in paths then next.geometryUri else def.geometryUri,
      if "as_named" in paths then next.asNamed else def.asNamed,
      if "overlay" in paths then next.overlay else def.overlay,
      if "files" in paths then next.files else def.files,
      if "flatten_hierarchy" in paths then next.flattenHierarchy else def.flattenHierarchy)
  }

  function Paths(paths: seq<string>): set<string> {
    set p | p in paths
  }

  // A mask takes the fields it names, in whatever order and however often it names them; a whole update has no mask. A
  // path that is no field refuses the update.
  method Update(def: Definition, next: Definition, paths: seq<string>) returns (r: Result<Definition>)
    ensures paths == [] ==> r == Ok(next)
    ensures paths != [] && Paths(paths) <= FIELDS ==> r == Ok(Merged(def, next, Paths(paths)))
    ensures !(Paths(paths) <= FIELDS) ==> r.Err? && r.why.NotAField? && r.why.path in paths && r.why.path !in FIELDS
  {
    if paths == [] {
      return Ok(next);
    }
    var now := def;
    for i := 0 to |paths|
      invariant now == Merged(def, next, Paths(paths[..i])) && Paths(paths[..i]) <= FIELDS
    {
      assert Paths(paths[..i + 1]) == Paths(paths[..i]) + {paths[i]} by {
        assert paths[..i + 1] == paths[..i] + [paths[i]];
      }
      SetFieldMerges(def, next, Paths(paths[..i]), paths[i]);
      match SetField(now, next, paths[i])
      case None =>
        assert paths[i] in Paths(paths);
        return Err(NotAField(paths[i]));
      case Some(changed) => now := changed;
    }
    assert paths[..|paths|] == paths;
    r := Ok(now);
  }

  lemma SetFieldMerges(def: Definition, next: Definition, paths: set<string>, path: string)
    ensures SetField(Merged(def, next, paths), next, path) ==
              if path in FIELDS then Some(Merged(def, next, paths + {path})) else None
  {
    var more := paths + {path};
    assert forall p :: p in more <==> p in paths || p == path;
    if path in FIELDS {
      assert path == "uri" || path == "board_uri" || path == "geometry_uri" || path == "as_named" || path == "overlay"
          || path == "files" || path == "flatten_hierarchy";
    }
  }

  /* ---- ingesting ---- */

  const PREFIX := "snapshots/"

  // What the check at the start of an ingest decides: refuse, answer with what is held, or read and store.
  datatype Decision = Refuse(why: Refusal) | AnswerHeld(def: Definition) | ReadAndStore

  function Checked(g: Registry, name: string, def: Definition, readBoard: bool): Decision {
    if name !in g.m then ReadAndStore
    else if g.m[name].def != def then Refuse(AlreadyExists)
    else if !readBoard then AnswerHeld(g.m[name].def)
    else ReadAndStore
  }

  // No held snapshot has had its definition replaced by another.
  ghost predicate KeepsDefinitions(was: Registry, now: Registry) {
    forall k | k in was.m && k in now.m :: now.m[k].def == was.m[k].def
  }

  // The check and the store are not one step, and anything may happen in between. Storing keeps every definition exactly
  // when, at that moment, the name is not held with a different one.
  lemma StoreKeepsDefinitions(g: Registry, name: string, e: Entry, max: nat)
    requires Held(g, max) && max > 0 && name != ""
    ensures KeepsDefinitions(g, Stored(g, name, e, max)) <==> (name in g.m ==> g.m[name].def == e.def)
  {
    StoredHolds(g, name, e, max);
    StoredParts(g, name, e, max);
  }

  // So with no other store in between, an ingest that its check lets through replaces no definition.
  lemma CheckedStoreKeepsDefinitions(g: Registry, name: string, e: Entry, readBoard: bool, max: nat)
    requires Held(g, max) && max > 0 && name != ""
    requires Checked(g, name, e.def, readBoard) == ReadAndStore
    ensures KeepsDefinitions(g, Stored(Asked(g, name), name, e, max))
  {
    AskedHolds(g, name, max);
    StoreKeepsDefinitions(Asked(g, name), name, e, max);
  }

  // Two ingests of one new id with different definitions may both pass their checks; both then store, and the first
  // client's snapshot reads another definition than the one it was answered with.
  lemma RacingIngestsReplace(g: Registry, name: string, a: Entry, b: Entry, max: nat)
    requires Held(g, max) && max > 0 && name != "" && name !in g.m && a.def != b.def
    ensures Checked(g, name, a.def, false) == ReadAndStore && Checked(g, name, b.def, false) == ReadAndStore
    ensures var first := Stored(g, name, a, max);
            && name in first.m && first.m[name].def == a.def
            && !KeepsDefinitions(first, Stored(first, name, b, max))
  {
    StoredHolds(g, name, a, max);
    StoreKeepsDefinitions(Stored(g, name, a, max), name, b, max);
  }

  /* ---- the registry itself, and the service over it ---- */

  // A snapshot nothing was read for is never stale.
  ghost predicate Answerable(files: Files, t: Touched) {
    t == map[] || Unchanged(files, t)
  }

  class SnapshotRegistry {
    var m: map<string, Entry>
    var used: Ticks
    var tick: nat
    var recorders: map<RecorderId, Touched>
    var next: RecorderId
    const max: nat

    function Now(): Registry
      reads this
    {
      Registry(m, used, tick)
    }

    ghost predicate Valid()
      reads this
    {
      && Held(Now(), max) && max > 0
      && (forall k | k in m :: m[k].rec in recorders)
      && forall id | id in recorders :: id < next
    }

    constructor (limit: int)
      ensures Valid() && m == map[] && recorders == map[] && max == if limit <= 0 then 256 else limit
    {
      m, used, tick := map[], map[], 0;
      recorders, next := map[], 0;
      max := if limit <= 0 then 256 else limit;
    }

    method Get(name: string) returns (e: Option<Entry>)
      requires Valid()
      modifies `used, `tick
      ensures Valid() && Now() == Asked(old(Now()), name)
      ensures e == if name in m then Some(m[name]) else None
    {
      if name !in m {
        return None;
      }
      Touch(name);
      e := Some(m[name]);
    }

    method Touch(name: string)
      requires Valid() && name in m
      modifies `used, `tick
      ensures Valid() && Now() == Asked(old(Now()), name)
    {
      ghost var was := Now();
      AskedHolds(was, name, max);
      tick, used := tick + 1, used[name := tick + 1];
      assert Now() == Asked(was, name);
    }

    // A snapshot just read, with the recorder that its reading left.
    method Put(name: string, def: Definition, noted: Touched)
      requires Valid() && name != ""
      modifies this
      ensures Valid() && Now() == Stored(old(Now()), name, Entry(def, old(next)), max)
      ensures recorders == old(recorders)[old(next) := noted] && next == old(next) + 1
    {
      ghost var was := Now();
      StoredHolds(was, name, Entry(def, next), max);
      StoredParts(was, name, Entry(def, next), max);
      PutAndTrim(name, Entry(def, next));
      recorders, next := recorders[next := noted], next + 1;
    }

    method PutAndTrim(name: string, e: Entry)
      requires used.Keys == m.Keys && "" !in m && name != "" && Distinct(used) && Bounded(used, tick)
      modifies `m, `used, `tick
      ensures Now() == Stored(old(Now()), name, e, max)
    {
      ghost var was := Now();
      Stamp(name);
      m := m[name := e];
      ghost var all, stamps := m, used;
      assert all.Keys == stamps.Keys;
      TrimToMax();
      assert Now() == Registry(Only(all, Keepers(stamps, max)), Only(stamps, Keepers(stamps, max)), was.tick + 1);
      assert all == was.m[name := e] && stamps == was.used[name := was.tick + 1];
    }

    method Stamp(name: string)
      requires Distinct(used) && Bounded(used, tick)
      modifies `used, `tick
      ensures tick == old(tick) + 1 && used == old(used)[name := tick] && Distinct(used)
    {
      tick := tick + 1;
      used := used[name := tick];
      StampStaysDistinct(old(used), name, old(tick), used);
    }

    method TrimToMax()
      requires used.Keys == m.Keys && "" !in m && Distinct(used)
      modifies `m, `used
      ensures m == Only(old(m), Keepers(old(used), max)) && used == Only(old(used), Keepers(old(used), max))
    {
      ghost var all, stamps, kept := m, used, m.Keys;
      OnlyAll(all, kept);
      OnlyAll(stamps, kept);
      while |m| > max
        invariant kept <= all.Keys && m == Only(all, kept) && used == Only(stamps, kept)
        invariant Keepers(used, max) == Keepers(stamps, max)
        decreases kept
      {
        kept := DropOldest(all, stamps, kept);
      }
      assert used.Keys == kept == m.Keys && |used| == |used.Keys| && |m| == |m.Keys|;
      KeepersWithinLimit(used, max);
    }

    method DropOldest(ghost all: map<string, Entry>, ghost stamps: Ticks, ghost kept: set<string>)
      returns (ghost left: set<string>)
      requires stamps.Keys == all.Keys && kept <= all.Keys && "" !in all && Distinct(stamps)
      requires m == Only(all, kept) && used == Only(stamps, kept) && |m| > max
      modifies `m, `used
      ensures left < kept && m == Only(all, left) && used == Only(stamps, left)
      ensures Keepers(used, max) == Keepers(old(used), max)
    {
      assert used.Keys == kept == m.Keys && |m| == |m.Keys|;
      var oldest := OldestKey(used);
      OldestGoes(all, stamps, kept, max, oldest);
      m := m - {oldest};
      used := used - {oldest};
      left := kept - {oldest};
    }

    // Stores what was loaded, with the recorder that loading left. What could not be loaded is not stored.
    method StoreLoaded(name: string, def: Definition, loaded: Option<Touched>) returns (r: Result<Definition>)
      requires Valid() && name != ""
      modifies this
      ensures Valid()
      ensures loaded.None? ==> r == Err(Unreadable) && Now() == old(Now()) && recorders == old(recorders)
      ensures loaded.Some? ==>
                && r == Ok(def) && Now() == Stored(old(Now()), name, Entry(def, old(next)), max)
                && recorders == old(recorders)[old(next) := loaded.value]
    {
      if loaded.None? {
        return Err(Unreadable);
      }
      Put(name, def, loaded.value);
      r := Ok(def);
    }

    // What an ingest under an id of the client's does next.
    method CheckHeld(name: string, def: Definition, readBoard: bool) returns (d: Decision)
      requires Valid()
      modifies `used, `tick
      ensures Valid() && Now() == Asked(old(Now()), name) && d == Checked(old(Now()), name, def, readBoard)
    {
      var e := Get(name);
      if e.None? {
        return ReadAndStore;
      }
      if e.value.def != def {
        return Refuse(AlreadyExists);
      }
      if !readBoard {
        return AnswerHeld(e.value.def);
      }
      d := ReadAndStore;
    }

    // Creates a snapshot, or answers with the one held under the id when its definition is the same. Loading the definition
    // leaves a recorder of what it read, or fails, and then nothing is stored.
    method Ingest(id: string, mintedId: string, def: Definition, readBoard: bool, loaded: Option<Touched>)
      returns (r: Result<Definition>)
      requires Valid()
      modifies this
      ensures Valid()
      ensures var was, name := old(Now()), PREFIX + if id != "" then id else mintedId;
              if '/' in id || ' ' in id then r == Err(BadId) && Now() == was && recorders == old(recorders)
              else
                var check := if id != "" then Checked(was, name, def, readBoard) else ReadAndStore;
                var seen := if id != "" then Asked(was, name) else was;
                match check
                case Refuse(why) => r == Err(why) && Now() == seen && recorders == old(recorders)
                case AnswerHeld(held) => r == Ok(held) && held == def && Now() == seen && recorders == old(recorders)
                case ReadAndStore =>
                  if loaded.Some? then
                    && r == Ok(def) && Now() == Stored(seen, name, Entry(def, old(next)), max)
                    && recorders == old(recorders)[old(next) := loaded.value]
                  else r == Err(Unreadable) && Now() == seen && recorders == old(recorders)
    {
      if '/' in id || ' ' in id {
        return Err(BadId);
      }
      var name := PREFIX + if id != "" then id else mintedId;
      assert name[0] == 's';
      if id != "" {
        var check := CheckHeld(name, def, readBoard);
        if check.Refuse? {
          return Err(check.why);
        }
        if check.AnswerHeld? {
          return Ok(check.def);
        }
      }
      r := StoreLoaded(name, def, loaded);
    }

    // Replaces a snapshot's definition, whole or by a mask; an update that is refused, or cannot be read, leaves it.
    method UpdateSnapshot(name: string, next: Definition, paths: seq<string>, loaded: Option<Touched>)
      returns (r: Result<Definition>)
      requires Valid()
      modifies this
      ensures Valid()
      ensures name !in old(m) ==> r == Err(NotHeld) && Now() == old(Now())
      ensures name in old(m) && r.Err? ==> Now() == Asked(old(Now()), name)
      ensures r.Err? ==> recorders == old(recorders)
      ensures r.Ok? ==>
                && name in old(m) && loaded.Some? && Paths(paths) <= FIELDS
                && r.value == (if paths == [] then next else Merged(old(m)[name].def, next, Paths(paths)))
                && Now() == Stored(Asked(old(Now()), name), name, Entry(r.value, old(this.next)), max)
                && recorders == old(recorders)[old(this.next) := loaded.value]
      ensures name in old(m) && loaded.Some? && Paths(paths) <= FIELDS ==> r.Ok?
    {
      var e := Get(name);
      if e.None? {
        return Err(NotHeld);
      }
      var def := Update(e.value.def, next, paths);
      if def.Err? {
        return def;
      }
      r := StoreLoaded(name, def.value, loaded);
    }

    // The snapshot a question names. It is answered exactly when it is held and every file noted for it stamps as it did
    // when it was first noted.
    method Snapshot(name: string, files: Files) returns (r: Result<Entry>)
      requires Valid()
      modifies `used, `tick
      ensures Valid()
      ensures r.Ok? <==> name in m && Intact(files, recorders[m[name].rec])
      ensures r.Ok? ==> r.value == m[name]
      ensures r.Err? ==> r.why == if name == "" then NoName else if name !in m then NotHeld else Stale
      ensures Now() == if name == "" then old(Now()) else Asked(old(Now()), name)
    {
      if name == "" {
        return Err(NoName);
      }
      var e := Get(name);
      if e.None? {
        return Err(NotHeld);
      }
      var t := recorders[e.value.rec];
      if |t| > 0 {
        var same := StampAgain(files, t);
        if !same {
          return Err(Stale);
        }
      }
      r := Ok(e.value);
    }

    // A question, or a build under it, opens or looks for a file: the first stamp noted is kept.
    method NoteFile(rec: RecorderId, files: Files, n: Name)
      requires Valid() && rec in recorders
      modifies `recorders
      ensures Valid() && recorders == old(recorders)[rec := Note(old(recorders)[rec], files, n)]
    {
      if n !in recorders[rec] {
        var t: Touched := recorders[rec][n := At(files, n)];
        recorders := recorders[rec := t];
      }
    }

    // A question used a value the design cache held, and takes in what that value was read from.
    method TakeIn(rec: RecorderId, other: Touched)
      requires Valid() && rec in recorders
      modifies `recorders
      ensures Valid() && recorders == old(recorders)[rec := Merge(old(recorders)[rec], other)]
    {
      var t := TakeAll(recorders[rec], other);
      recorders := recorders[rec := t];
    }

    method DeleteSnapshot(name: string) returns (r: Result<()>)
      requires Valid()
      modifies `m, `used
      ensures Valid() && m == old(m) - {name} && used == old(used) - {name}
      ensures r == if name in old(m) then Ok(()) else Err(NotHeld)
    {
      r := if name in m then Ok(()) else Err(NotHeld);
      ghost var was := Now();
      DeletedHolds(was, name, max);
      m, used := m - {name}, used - {name};
      assert Now() == Deleted(was, name);
    }
  }
}

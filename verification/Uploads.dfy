// A host's uploaded files (service/upload.go): blobs kept by content hash under a byte limit, and the hosts built over
// manifests of them. A client ingests, is told what is missing, sends it, and ingests again.
module Uploads {
  import ArtifactUri
  import opened Paths
  import Recency
  import Sorting

  type Bytes = string
  type Blobs = map<string, Bytes>

  // One manifest line. The size is what the client declares, a 64-bit integer of either sign.
  datatype File = File(path: string, sha: string, size: int)

  datatype Host = Host(mount: string, contents: map<string, Bytes>)

  datatype Refusal =
    | TakesNoFiles
    | UncleanPath(path: string)
    | ListedTwice(path: string)
    | NoHash(path: string)
    | DesignTooBig
    | BlobTooBig
    | BlobsMissing(hashes: seq<string>)

  datatype Result<T> = Ok(value: T) | Err(why: Refusal)

  const DEFAULT_UPLOAD_BYTES := 0x4000_0000
  const DESIGN_FILES_MAX_BYTES := 0x1000_0000
  const UPLOAD_HOSTS := 16
  const HASH_PREFIX := "sha256:"

  /* ---- sizes ---- */

  ghost function Total(blobs: Blobs): nat {
    if blobs == map[] then 0
    else
      var k :| k in blobs;
      |blobs[k]| + Total(blobs - {k})
  }

  lemma {:induction false} TotalSplits(blobs: Blobs, k: string)
    requires k in blobs
    ensures Total(blobs) == |blobs[k]| + Total(blobs - {k})
    decreases |blobs|
  {
    var j :| j in blobs && Total(blobs) == |blobs[j]| + Total(blobs - {j});
    if j != k {
      TotalSplits(blobs - {j}, k);
      TotalSplits(blobs - {k}, j);
      assert blobs - {j} - {k} == blobs - {k} - {j};
    }
  }

  lemma TotalAdds(blobs: Blobs, k: string, b: Bytes)
    requires k !in blobs
    ensures Total(blobs[k := b]) == Total(blobs) + |b|
  {
    TotalSplits(blobs[k := b], k);
    assert blobs[k := b] - {k} == blobs;
  }

  lemma {:induction false} TotalOfPart(part: Blobs, whole: Blobs)
    requires forall k | k in part :: k in whole && part[k] == whole[k]
    ensures Total(part) <= Total(whole)
    decreases |part|
  {
    if part != map[] {
      var k :| k in part;
      TotalSplits(part, k);
      TotalSplits(whole, k);
      TotalOfPart(part - {k}, whole - {k});
    }
  }

  /* ---- the manifest ---- */

  function Wrap64(x: int): int {
    (x + 0x8000_0000_0000_0000) % 0x1_0000_0000_0000_0000 - 0x8000_0000_0000_0000
  }

  // What the declared sizes add up to in a 64-bit counter that starts at sum.
  function Declared(sum: int, files: seq<File>): int
    decreases files
  {
    if files == [] then sum else Declared(Wrap64(sum + files[0].size), files[1..])
  }

  // A path is taken as the client wrote it only when it is already clean and does not leave the mount.
  function CleanIn(mount: string): string -> bool {
    p => p != "" && ArtifactUri.New(mount, p) == ArtifactUri.Ok(ArtifactUri.URI(mount, p))
  }

  function FileFault(clean: string -> bool, seen: set<string>, f: File): Option<Refusal> {
    if !clean(f.path) then Some(UncleanPath(f.path))
    else if f.path in seen then Some(ListedTwice(f.path))
    else if !ArtifactUri.HasPrefix(f.sha, HASH_PREFIX) then Some(NoHash(f.path))
    else None
  }

  function FirstFault(clean: string -> bool, seen: set<string>, files: seq<File>): Option<Refusal>
    decreases files
  {
    if files == [] then None
    else
      match FileFault(clean, seen, files[0])
      case Some(why) => Some(why)
      case None => FirstFault(clean, seen + {files[0].path}, files[1..])
  }

  lemma FaultsInTurn(clean: string -> bool, seen: set<string>, sum: int, files: seq<File>, i: nat)
    requires i < |files|
    ensures FirstFault(clean, seen, files[i..]) ==
              if FileFault(clean, seen, files[i]).Some? then FileFault(clean, seen, files[i])
              else FirstFault(clean, seen + {files[i].path}, files[i + 1..])
    ensures Declared(sum, files[i..]) == Declared(Wrap64(sum + files[i].size), files[i + 1..])
  {
    assert files[i..][0] == files[i] && files[i..][1..] == files[i + 1..];
  }

  // Why a manifest is refused before anything is looked up, if it is.
  function ManifestFault(mount: string, files: seq<File>): Option<Refusal> {
    match FirstFault(CleanIn(mount), {}, files)
    case Some(why) => Some(why)
    case None => if Declared(0, files) > DESIGN_FILES_MAX_BYTES then Some(DesignTooBig) else None
  }

  ghost predicate DistinctPaths(files: seq<File>) {
    forall i, j | 0 <= i < j < |files| :: files[i].path != files[j].path
  }

  lemma {:induction false} FaultlessIsDistinct(clean: string -> bool, seen: set<string>, files: seq<File>)
    requires FirstFault(clean, seen, files) == None
    ensures DistinctPaths(files)
    ensures forall f | f in files ::
              clean(f.path) && f.path !in seen && ArtifactUri.HasPrefix(f.sha, HASH_PREFIX)
    decreases files
  {
    if files != [] {
      FaultlessIsDistinct(clean, seen + {files[0].path}, files[1..]);
    }
  }

  // A manifest that is not refused names each file once, by a clean path inside the mount.
  lemma FaultlessIsClean(mount: string, files: seq<File>)
    requires ManifestFault(mount, files) == None
    ensures DistinctPaths(files)
    ensures forall f | f in files ::
              && f.path != "" && ArtifactUri.Contained(f.path) && Snug(f.path) && ArtifactUri.GoodMount(mount)
              && ArtifactUri.HasPrefix(f.sha, HASH_PREFIX)
  {
    FaultlessIsDistinct(CleanIn(mount), {}, files);
    forall f | f in files
      ensures f.path != "" && ArtifactUri.Contained(f.path) && Snug(f.path) && ArtifactUri.GoodMount(mount)
    {
      assert CleanIn(mount)(f.path);
      ArtifactUri.NewIsContained(mount, f.path);
      ArtifactUri.CleanedToItselfIsSnug(f.path);
    }
  }

  function Lines(files: seq<File>): seq<string> {
    if files == [] then [] else [files[0].path + "\U{0000}" + files[0].sha] + Lines(files[1..])
  }

  // Each line led by the byte that separates lines.
  function Led(lines: seq<string>): string {
    if lines == [] then "" else "\U{0001}" + lines[0] + Led(lines[1..])
  }

  // The text a manifest's key is the hash of: the mount and every sorted line, one separator between.
  function KeyText(mount: string, files: seq<File>): string {
    if files == [] then mount + "\U{0001}" else mount + Led(Sorting.Sort(Sorting.Before, Lines(files)))
  }

  /* ---- the state of the store, and what each operation does to it ---- */

  datatype State = State(blobs: Blobs, order: Recency.Ticks, bytes: nat, hosts: map<string, Host>,
                         used: Recency.Ticks, tick: nat)

  // What is fixed for the life of a store: its limit and its hash.
  datatype Setup = Setup(max: nat, digest: Bytes -> string)

  function Name(u: Setup, b: Bytes): string {
    HASH_PREFIX + u.digest(b)
  }

  // No two of these contents share a hash.
  ghost predicate CollisionFree(u: Setup, among: set<Bytes>) {
    forall a, b | a in among && b in among && u.digest(a) == u.digest(b) :: a == b
  }

  ghost predicate Within(blobs: Blobs, among: set<Bytes>) {
    forall h | h in blobs :: blobs[h] in among
  }

  function Key(u: Setup, mount: string, files: seq<File>): string {
    u.digest(KeyText(mount, files))
  }

  ghost predicate Sound(u: Setup, s: State) {
    && s.order.Keys == s.blobs.Keys
    && (forall h | h in s.blobs :: h == Name(u, s.blobs[h]))
    && s.bytes == Total(s.blobs) <= u.max
    && Recency.Bounded(s.order, s.tick)
    && s.used.Keys == s.hosts.Keys && |s.hosts| <= UPLOAD_HOSTS
    && Recency.Distinct(s.used) && Recency.Bounded(s.used, s.tick)
  }

  // What trimming may keep, when h has just been stored: h, and as many of the most recently used others as fit. No
  // victim was used after a survivor, and the last victim would not have fitted.
  ghost predicate Trimmed(blobs: Blobs, order: Recency.Ticks, max: nat, h: string, kept: set<string>)
    requires order.Keys == blobs.Keys
  {
    && h in kept && kept <= blobs.Keys
    && Total(Recency.Only(blobs, kept)) <= max
    && (forall g, k | g in blobs && g !in kept && k in kept && k != h :: order[g] <= order[k])
    && (kept == blobs.Keys || exists g :: LastVictim(blobs, order, max, kept, g))
  }

  ghost predicate LastVictim(blobs: Blobs, order: Recency.Ticks, max: nat, kept: set<string>, g: string)
    requires order.Keys == blobs.Keys
  {
    && g in blobs && g !in kept
    && (forall j | j in blobs && j !in kept :: order[j] <= order[g])
    && Total(Recency.Only(blobs, kept + {g})) > max
  }

  // Storing content b. Content over the limit changes nothing; content already held is only marked as used.
  ghost predicate Puts(u: Setup, s: State, b: Bytes, t: State, r: Result<string>) {
    var h := Name(u, b);
    if |b| > u.max then r == Err(BlobTooBig) && t == s
    else
      && r == Ok(h) && t.tick == s.tick + 1 && t.hosts == s.hosts && t.used == s.used
      && s.order.Keys == s.blobs.Keys && t.bytes == Total(t.blobs)
      && (if h in s.blobs then t.blobs == s.blobs && t.order == s.order[h := t.tick]
          else
            var all, stamps := s.blobs[h := b], s.order[h := t.tick];
            && Trimmed(all, stamps, u.max, h, t.blobs.Keys)
            && t.blobs == Recency.Only(all, t.blobs.Keys) && t.order == Recency.Only(stamps, t.blobs.Keys))
  }

  ghost predicate PutAt(u: Setup, trace: seq<State>, bs: seq<Bytes>, i: nat)
    requires i < |bs| && |trace| == |bs| + 1
  {
    Puts(u, trace[i], bs[i], trace[i + 1], Ok(Name(u, bs[i])))
  }

  // Storing several contents one after another, through the states of trace.
  ghost predicate PutsAll(u: Setup, trace: seq<State>, bs: seq<Bytes>) {
    |trace| == |bs| + 1 && forall i: nat | i < |bs| :: PutAt(u, trace, bs, i)
  }

  lemma PutsOneMore(u: Setup, trace: seq<State>, bs: seq<Bytes>, b: Bytes, t: State)
    requires PutsAll(u, trace, bs) && Puts(u, trace[|bs|], b, t, Ok(Name(u, b)))
    ensures PutsAll(u, trace + [t], bs + [b])
  {
    forall i: nat | i < |bs| + 1 ensures PutAt(u, trace + [t], bs + [b], i) {
      if i < |bs| {
        assert PutAt(u, trace, bs, i);
      }
    }
  }

  function Names(u: Setup, bs: seq<Bytes>): seq<string> {
    if bs == [] then [] else Names(u, bs[..|bs| - 1]) + [Name(u, bs[|bs| - 1])]
  }

  ghost function Hashes(files: seq<File>): set<string> {
    set f | f in files :: f.sha
  }

  ghost function PathSet(files: seq<File>): set<string> {
    set f | f in files :: f.path
  }

  // The order after every held content of a manifest is marked as used at tick.
  ghost function Bumped(order: Recency.Ticks, files: seq<File>, tick: nat): Recency.Ticks {
    map h | h in order :: if h in Hashes(files) then tick else order[h]
  }

  // Every file of the manifest, with the content held under its hash.
  ghost predicate Holds(host: Host, mount: string, files: seq<File>, blobs: Blobs) {
    && host.mount == mount
    && host.contents.Keys == PathSet(files)
    && (forall f | f in files :: f.path in host.contents && f.sha in blobs && host.contents[f.path] == blobs[f.sha])
  }

  // Asking for the host of a manifest: a faulty one changes nothing; otherwise the host kept for it answers, or the
  // contents are looked up.
  ghost predicate Ingests(u: Setup, s: State, mount: string, files: seq<File>, t: State, r: Result<Host>) {
    var fault, key := ManifestFault(mount, files), Key(u, mount, files);
    if fault.Some? then r == Err(fault.value) && t == s
    else if key in s.hosts then r == Ok(s.hosts[key]) && t == s.(used := s.used[key := s.tick + 1], tick := s.tick + 1)
    else LooksUp(s, mount, files, key, t, r)
  }

  // Every content that is held is marked as used; if none is missing a host is built and kept, and if some are, they
  // are named, each once and in order.
  ghost predicate LooksUp(s: State, mount: string, files: seq<File>, key: string, t: State, r: Result<Host>) {
    && t.tick == s.tick + 1 && t.blobs == s.blobs && t.bytes == s.bytes && t.order == Bumped(s.order, files, t.tick)
    && if Hashes(files) <= s.blobs.Keys then
         r.Ok? && Holds(r.value, mount, files, s.blobs) && KeepsHost(s, t, key, r.value)
       else
         && r.Err? && r.why.BlobsMissing? && Sorting.Ascending(r.why.hashes)
         && (forall h :: h in r.why.hashes <==> h in Hashes(files) && h !in s.blobs)
         && t.hosts == s.hosts && t.used == s.used
  }

  // A new host is kept, and the least recently used one is let go past the limit.
  ghost predicate KeepsHost(s: State, t: State, key: string, host: Host) {
    var all, stamps := s.hosts[key := host], s.used[key := t.tick];
    && t.hosts == Recency.Only(all, t.hosts.Keys) && t.used == Recency.Only(stamps, t.hosts.Keys)
    && t.hosts.Keys == Recency.Keepers(stamps, UPLOAD_HOSTS)
  }

  /* ---- every operation keeps the store sound ---- */

  lemma OnlyKeepsNames(u: Setup, blobs: Blobs, kept: set<string>, part: Blobs)
    requires forall h | h in blobs :: h == Name(u, blobs[h])
    requires part == Recency.Only(blobs, kept)
    ensures forall h | h in part :: h == Name(u, part[h])
  {
  }

  lemma NewBlobKeepsSound(u: Setup, s: State, b: Bytes, t: State)
    requires Sound(u, s) && Puts(u, s, b, t, Ok(Name(u, b))) && Name(u, b) !in s.blobs && |b| <= u.max
    ensures Sound(u, t) && Name(u, b) in t.blobs && t.order[Name(u, b)] == t.tick
  {
    var all, stamps := s.blobs[Name(u, b) := b], s.order[Name(u, b) := t.tick];
    OnlyKeepsNames(u, all, t.blobs.Keys, t.blobs);
    assert Recency.Bounded(stamps, t.tick);
    assert t.order.Keys == t.blobs.Keys;
  }

  lemma PutKeepsSound(u: Setup, s: State, b: Bytes, t: State, r: Result<string>)
    requires Sound(u, s) && Puts(u, s, b, t, r)
    ensures Sound(u, t)
    ensures r.Ok? ==> r.value == Name(u, b) && r.value in t.blobs && t.order[r.value] == t.tick
  {
    if |b| <= u.max && Name(u, b) !in s.blobs {
      NewBlobKeepsSound(u, s, b, t);
    }
  }

  lemma HostStampsStayDistinct(used: Recency.Ticks, key: string, tick: nat, keys: set<string>)
    requires Recency.Distinct(used) && Recency.Bounded(used, tick) && key !in used
    ensures Recency.Distinct(Recency.Only(used[key := tick + 1], keys))
    ensures Recency.Bounded(Recency.Only(used[key := tick + 1], keys), tick + 1)
  {
  }

  lemma KeepersOfHosts(hosts: map<string, Host>, used: Recency.Ticks, key: string, tick: nat)
    requires used.Keys == hosts.Keys && |hosts| <= UPLOAD_HOSTS && key !in hosts
    requires Recency.Distinct(used) && Recency.Bounded(used, tick)
    ensures var keepers := Recency.Keepers(used[key := tick + 1], UPLOAD_HOSTS);
            && key in keepers && |keepers| <= UPLOAD_HOSTS && keepers <= hosts.Keys + {key}
            && (|hosts| < UPLOAD_HOSTS ==> keepers == hosts.Keys + {key})
  {
    Recency.KeepersAfterNew(used, key, tick, UPLOAD_HOSTS);
    assert |used.Keys| == |hosts.Keys| && |used| == |used.Keys| && |hosts| == |hosts.Keys|;
  }

  lemma HostsAreKept(hosts: map<string, Host>, key: string, host: Host, keepers: set<string>, now: map<string, Host>)
    requires key in keepers && |keepers| <= UPLOAD_HOSTS && keepers <= hosts.Keys + {key}
    requires now == Recency.Only(hosts[key := host], keepers)
    ensures now.Keys == keepers && |now| <= UPLOAD_HOSTS && key in now && now[key] == host
    ensures keepers == hosts.Keys + {key} ==> now == hosts[key := host]
  {
    assert now.Keys == keepers;
    assert |now| == |now.Keys|;
  }

  lemma StampsAreKept(used: Recency.Ticks, key: string, tick: nat, keepers: set<string>, now: Recency.Ticks)
    requires keepers <= used.Keys + {key} && now == Recency.Only(used[key := tick], keepers)
    ensures now.Keys == keepers
  {
  }

  lemma HostsStayBounded(s: State, t: State, key: string, host: Host)
    requires s.used.Keys == s.hosts.Keys && |s.hosts| <= UPLOAD_HOSTS && key !in s.hosts
    requires Recency.Distinct(s.used) && Recency.Bounded(s.used, s.tick)
    requires t.tick == s.tick + 1 && KeepsHost(s, t, key, host)
    ensures t.used.Keys == t.hosts.Keys && |t.hosts| <= UPLOAD_HOSTS && key in t.hosts && t.hosts[key] == host
    ensures Recency.Distinct(t.used) && Recency.Bounded(t.used, t.tick)
    ensures |s.hosts| < UPLOAD_HOSTS ==> t.hosts == s.hosts[key := host]
  {
    KeepersOfHosts(s.hosts, s.used, key, s.tick);
    HostStampsStayDistinct(s.used, key, s.tick, t.hosts.Keys);
    HostsAreKept(s.hosts, key, host, t.hosts.Keys, t.hosts);
    StampsAreKept(s.used, key, t.tick, t.hosts.Keys, t.used);
  }

  lemma BumpStaysBounded(s: State, files: seq<File>)
    requires s.order.Keys == s.blobs.Keys && Recency.Bounded(s.order, s.tick)
    ensures Recency.Bounded(Bumped(s.order, files, s.tick + 1), s.tick + 1)
    ensures Bumped(s.order, files, s.tick + 1).Keys == s.blobs.Keys
  {
  }

  lemma LookUpKeepsSound(u: Setup, s: State, mount: string, files: seq<File>, key: string, t: State, r: Result<Host>)
    requires Sound(u, s) && key !in s.hosts && LooksUp(s, mount, files, key, t, r)
    ensures Sound(u, t)
  {
    BumpStaysBounded(s, files);
    if Hashes(files) <= s.blobs.Keys {
      HostsStayBounded(s, t, key, r.value);
    }
  }

  lemma IngestKeepsSound(u: Setup, s: State, mount: string, files: seq<File>, t: State, r: Result<Host>)
    requires Sound(u, s) && Ingests(u, s, mount, files, t, r)
    ensures Sound(u, t)
  {
    var key := Key(u, mount, files);
    if ManifestFault(mount, files).None? && key !in s.hosts {
      LookUpKeepsSound(u, s, mount, files, key, t, r);
    }
  }

  /* ---- ingest, send what is missing, ingest again ---- */

  // What a client holds for the hashes of a manifest.
  ghost predicate Client(u: Setup, content: Blobs, need: set<string>) {
    forall h | h in need :: h in content && Name(u, content[h]) == h
  }

  // Since the ingest at tick, everything the manifest needs was used no earlier than it, and everything else before.
  ghost predicate NeededIsNewest(s: State, need: set<string>, tick: nat) {
    && s.order.Keys == s.blobs.Keys && tick <= s.tick
    && forall h | h in s.order :: h in need <==> s.order[h] >= tick
  }

  lemma IngestBumpsTheNeeded(u: Setup, s: State, mount: string, files: seq<File>, t: State, r: Result<Host>)
    requires Sound(u, s) && Ingests(u, s, mount, files, t, r) && r.Err? && r.why.BlobsMissing?
    requires ManifestFault(mount, files) == None
    ensures NeededIsNewest(t, Hashes(files), t.tick)
  {
  }

  // A hash names one content, so what is held under it is what the client holds.
  lemma HeldIsTheClients(u: Setup, s: State, content: Blobs, need: set<string>, h: string, among: set<Bytes>)
    requires CollisionFree(u, among) && Within(s.blobs, among) && Within(content, among)
    requires Sound(u, s) && Client(u, content, need) && h in need && h in s.blobs
    ensures s.blobs[h] == content[h]
  {
    var a, b := s.blobs[h], content[h];
    assert HASH_PREFIX + u.digest(a) == HASH_PREFIX + u.digest(b);
    assert u.digest(a) == (HASH_PREFIX + u.digest(a))[|HASH_PREFIX|..];
    assert u.digest(b) == (HASH_PREFIX + u.digest(b))[|HASH_PREFIX|..];
  }

  // No victim of a trim is needed: once a needed blob goes, only needed ones are left, and those fit.
  lemma NeededSurvivesTrim(blobs: Blobs, order: Recency.Ticks, max: nat, h: string, kept: set<string>,
                           content: Blobs, need: set<string>, tick: nat, g: string)
    requires order.Keys == blobs.Keys && Trimmed(blobs, order, max, h, kept)
    requires forall k | k in order :: k in need <==> order[k] >= tick
    requires forall k | k in blobs && k in need :: k in content && blobs[k] == content[k]
    requires Total(Recency.Only(content, need)) <= max
    requires g in blobs && g in need && h in need
    ensures g in kept
  {
    if g !in kept {
      var v :| LastVictim(blobs, order, max, kept, v);
      var left := Recency.Only(blobs, kept + {v});
      forall k | k in left ensures k in Recency.Only(content, need) && left[k] == Recency.Only(content, need)[k] {
        if k != h && k != v {
          assert order[g] <= order[k];
        }
      }
      TotalOfPart(left, Recency.Only(content, need));
    }
  }

  // What is held of what is needed is what the client holds.
  ghost predicate Agrees(blobs: Blobs, content: Blobs, need: set<string>) {
    forall h | h in blobs && h in need :: h in content && blobs[h] == content[h]
  }

  lemma SoundAgrees(u: Setup, s: State, content: Blobs, need: set<string>, among: set<Bytes>)
    requires CollisionFree(u, among) && Within(s.blobs, among) && Within(content, among)
    requires Sound(u, s) && Client(u, content, need)
    ensures Agrees(s.blobs, content, need)
  {
    forall h | h in s.blobs && h in need ensures h in content && s.blobs[h] == content[h] {
      HeldIsTheClients(u, s, content, need, h, among);
    }
  }

  lemma NewBlobKeepsTheNeeded(u: Setup, s: State, content: Blobs, need: set<string>, tick: nat, h: string, t: State)
    requires h in need && h in content && h !in s.blobs && h == Name(u, content[h])
    requires Agrees(s.blobs, content, need) && Total(Recency.Only(content, need)) <= u.max
    requires NeededIsNewest(s, need, tick) && Puts(u, s, content[h], t, Ok(h))
    ensures NeededIsNewest(t, need, tick)
    ensures h in t.blobs && forall g | g in need && g in s.blobs :: g in t.blobs
  {
    var all, stamps := s.blobs[h := content[h]], s.order[h := t.tick];
    var kept := t.blobs.Keys;
    assert stamps.Keys == all.Keys;
    assert Trimmed(all, stamps, u.max, h, kept);
    forall g | g in need && g in s.blobs ensures g in kept {
      NeededSurvivesTrim(all, stamps, u.max, h, kept, content, need, tick, g);
    }
    assert t.order == Recency.Only(stamps, kept);
  }

  // Storing one needed content loses no other.
  lemma PutKeepsTheNeeded(u: Setup, s: State, content: Blobs, need: set<string>, tick: nat, h: string, t: State)
    requires h in need && h in content && h == Name(u, content[h])
    requires Agrees(s.blobs, content, need) && Total(Recency.Only(content, need)) <= u.max
    requires NeededIsNewest(s, need, tick) && Puts(u, s, content[h], t, Ok(h))
    ensures NeededIsNewest(t, need, tick)
    ensures h in t.blobs && forall g | g in need && g in s.blobs :: g in t.blobs
  {
    if h !in s.blobs {
      NewBlobKeepsTheNeeded(u, s, content, need, tick, h, t);
    }
  }

  function Sent(content: Blobs, hs: seq<string>): (r: seq<Bytes>)
    requires forall h | h in hs :: h in content
    ensures |r| == |hs| && forall i | 0 <= i < |hs| :: r[i] == content[hs[i]]
  {
    seq(|hs|, i requires 0 <= i < |hs| => content[hs[i]])
  }

  lemma {:induction false} PutsKeepSound(u: Setup, trace: seq<State>, bs: seq<Bytes>, n: nat)
    requires PutsAll(u, trace, bs) && Sound(u, trace[0]) && n <= |bs|
    ensures Sound(u, trace[n]) && trace[n].hosts == trace[0].hosts
  {
    if n > 0 {
      PutsKeepSound(u, trace, bs, n - 1);
      assert PutAt(u, trace, bs, n - 1);
      PutKeepsSound(u, trace[n - 1], bs[n - 1], trace[n], Ok(Name(u, bs[n - 1])));
    }
  }

  // What was held at first, or has been sent by step n, is still held at step n.
  ghost predicate HeldAt(trace: seq<State>, need: set<string>, tick: nat, hs: seq<string>, n: nat)
    requires n < |trace| && n <= |hs|
  {
    && NeededIsNewest(trace[n], need, tick)
    && forall g | g in need && (g in trace[0].blobs || g in hs[..n]) :: g in trace[n].blobs
  }

  lemma PutHoldsOn(u: Setup, content: Blobs, need: set<string>, tick: nat, hs: seq<string>, trace: seq<State>, n: nat)
    requires n < |hs| && n + 1 < |trace|
    requires hs[n] in need && hs[n] in content && hs[n] == Name(u, content[hs[n]])
    requires Agrees(trace[n].blobs, content, need) && Total(Recency.Only(content, need)) <= u.max
    requires Puts(u, trace[n], content[hs[n]], trace[n + 1], Ok(hs[n]))
    requires HeldAt(trace, need, tick, hs, n)
    ensures HeldAt(trace, need, tick, hs, n + 1)
  {
    PutKeepsTheNeeded(u, trace[n], content, need, tick, hs[n], trace[n + 1]);
    assert hs[..n + 1] == hs[..n] + [hs[n]];
  }

  lemma OnePut(u: Setup, content: Blobs, need: set<string>, hs: seq<string>, trace: seq<State>, i: nat)
    requires Client(u, content, need) && i < |hs| && forall h | h in hs :: h in need
    requires PutsAll(u, trace, Sent(content, hs))
    ensures hs[i] in need && hs[i] in content && hs[i] == Name(u, content[hs[i]])
    ensures Puts(u, trace[i], content[hs[i]], trace[i + 1], Ok(hs[i]))
  {
    assert Sent(content, hs)[i] == content[hs[i]] && PutAt(u, trace, Sent(content, hs), i);
  }

  lemma {:induction false} PutsKeepTheNeeded(u: Setup, content: Blobs, need: set<string>, tick: nat, hs: seq<string>,
                                             trace: seq<State>, n: nat)
    requires Client(u, content, need) && Total(Recency.Only(content, need)) <= u.max
    requires forall h | h in hs :: h in need
    requires PutsAll(u, trace, Sent(content, hs)) && n <= |hs|
    requires forall i | 0 <= i <= |hs| :: Agrees(trace[i].blobs, content, need)
    requires NeededIsNewest(trace[0], need, tick)
    ensures HeldAt(trace, need, tick, hs, n)
  {
    if n > 0 {
      PutsKeepTheNeeded(u, content, need, tick, hs, trace, n - 1);
      OnePut(u, content, need, hs, trace, n - 1);
      PutHoldsOn(u, content, need, tick, hs, trace, n - 1);
    }
  }

  lemma {:induction false} PutsStayWithin(u: Setup, trace: seq<State>, bs: seq<Bytes>, n: nat, among: set<Bytes>)
    requires PutsAll(u, trace, bs) && Within(trace[0].blobs, among) && n <= |bs| && forall b | b in bs :: b in among
    ensures Within(trace[n].blobs, among)
  {
    if n > 0 {
      PutsStayWithin(u, trace, bs, n - 1, among);
      assert PutAt(u, trace, bs, n - 1);
      assert bs[n - 1] in bs;
    }
  }

  lemma PutsAgree(u: Setup, content: Blobs, need: set<string>, trace: seq<State>, bs: seq<Bytes>, among: set<Bytes>)
    requires Client(u, content, need) && PutsAll(u, trace, bs) && Sound(u, trace[0])
    requires CollisionFree(u, among) && Within(trace[0].blobs, among) && Within(content, among)
    requires forall b | b in bs :: b in among
    ensures forall i | 0 <= i <= |bs| :: Agrees(trace[i].blobs, content, need)
  {
    forall i | 0 <= i <= |bs| ensures Agrees(trace[i].blobs, content, need) {
      PutsKeepSound(u, trace, bs, i);
      PutsStayWithin(u, trace, bs, i, among);
      SoundAgrees(u, trace[i], content, need, among);
    }
  }

  lemma SentIsWithin(content: Blobs, hs: seq<string>, among: set<Bytes>)
    requires Within(content, among) && forall h | h in hs :: h in content
    ensures forall b | b in Sent(content, hs) :: b in among
  {
    forall b | b in Sent(content, hs) ensures b in among {
      var i :| 0 <= i < |hs| && Sent(content, hs)[i] == b;
    }
  }

  // What is held all at once fits.
  lemma HeldTogetherFits(u: Setup, s: State, content: Blobs, need: set<string>)
    requires Sound(u, s) && Agrees(s.blobs, content, need) && need <= s.blobs.Keys
    ensures Total(Recency.Only(content, need)) <= u.max
  {
    TotalOfPart(Recency.Only(content, need), s.blobs);
  }

  lemma MissingIsNeeded(u: Setup, s: State, mount: string, files: seq<File>, t: State, missing: seq<string>)
    requires ManifestFault(mount, files) == None
    requires Ingests(u, s, mount, files, t, Err(BlobsMissing(missing)))
    ensures t.blobs == s.blobs && t.hosts == s.hosts && Key(u, mount, files) !in s.hosts
    ensures forall h :: h in missing <==> h in Hashes(files) && h !in s.blobs
  {
  }

  lemma SendingReachesAll(u: Setup, t: State, need: set<string>, missing: seq<string>, content: Blobs,
                          trace: seq<State>, among: set<Bytes>)
    requires CollisionFree(u, among) && Within(t.blobs, among) && Within(content, among)
    requires Sound(u, t) && Client(u, content, need) && NeededIsNewest(t, need, t.tick)
    requires forall h :: h in missing <==> h in need && h !in t.blobs
    requires PutsAll(u, trace, Sent(content, missing)) && trace[0] == t
    requires Total(Recency.Only(content, need)) <= u.max
    ensures need <= trace[|missing|].blobs.Keys
  {
    SentIsWithin(content, missing, among);
    PutsAgree(u, content, need, trace, Sent(content, missing), among);
    PutsKeepTheNeeded(u, content, need, t.tick, missing, trace, |missing|);
    assert missing[..|missing|] == missing;
  }

  lemma BuiltIsTheClients(u: Setup, s: State, mount: string, files: seq<File>, t: State, r: Result<Host>, content: Blobs)
    requires Agrees(s.blobs, content, Hashes(files)) && Key(u, mount, files) !in s.hosts
    requires ManifestFault(mount, files) == None && Ingests(u, s, mount, files, t, r)
    ensures r.Ok? <==> Hashes(files) <= s.blobs.Keys
    ensures r.Ok? ==> forall f | f in files :: f.path in r.value.contents && f.sha in content
                                               && r.value.contents[f.path] == content[f.sha]
  {
  }

  // Where no two of the contents held or sent share a hash, the exchange converges, with no other client in between, exactly
  // when the manifest's distinct contents fit the
  // limit together; and then the host it ends in serves each file its own content.
  lemma RetryConverges(u: Setup, s: State, mount: string, files: seq<File>, t: State, missing: seq<string>,
                       content: Blobs, trace: seq<State>, end: State, r: Result<Host>, among: set<Bytes>)
    requires CollisionFree(u, among) && Within(s.blobs, among) && Within(content, among)
    requires Sound(u, s) && Client(u, content, Hashes(files))
    requires ManifestFault(mount, files) == None
    requires Ingests(u, s, mount, files, t, Err(BlobsMissing(missing)))
    requires forall h | h in missing :: h in content
    requires PutsAll(u, trace, Sent(content, missing)) && trace[0] == t
    requires Ingests(u, trace[|missing|], mount, files, end, r)
    ensures r.Ok? <==> Total(Recency.Only(content, Hashes(files))) <= u.max
    ensures r.Ok? ==> forall f | f in files :: f.path in r.value.contents && f.sha in content
                                               && r.value.contents[f.path] == content[f.sha]
  {
    var last := trace[|missing|];
    IngestKeepsSound(u, s, mount, files, t, Err(BlobsMissing(missing)));
    PutsKeepSound(u, trace, Sent(content, missing), |missing|);
    MissingIsNeeded(u, s, mount, files, t, missing);
    SentIsWithin(content, missing, among);
    PutsStayWithin(u, trace, Sent(content, missing), |missing|, among);
    SoundAgrees(u, last, content, Hashes(files), among);
    BuiltIsTheClients(u, last, mount, files, end, r, content);
    if Total(Recency.Only(content, Hashes(files))) <= u.max {
      IngestBumpsTheNeeded(u, s, mount, files, t, Err(BlobsMissing(missing)));
      SendingReachesAll(u, t, Hashes(files), missing, content, trace, among);
    }
    if r.Ok? {
      HeldTogetherFits(u, last, content, Hashes(files));
    }
  }

  /* ---- which blobs go ---- */

  // When no two blobs were last used at the same tick, what a trim keeps is determined, so the order the map is walked
  // in does not show.
  lemma TrimIsDetermined(blobs: Blobs, order: Recency.Ticks, max: nat, h: string, a: set<string>, b: set<string>)
    requires order.Keys == blobs.Keys && Recency.Distinct(order)
    requires Trimmed(blobs, order, max, h, a) && Trimmed(blobs, order, max, h, b)
    ensures a == b
  {
    TrimKeepsNoMore(blobs, order, max, h, a, b);
    TrimKeepsNoMore(blobs, order, max, h, b, a);
  }

  lemma KeptByBoth(blobs: Blobs, order: Recency.Ticks, max: nat, h: string, a: set<string>, b: set<string>, x: string,
                   k: string)
    requires order.Keys == blobs.Keys && Recency.Distinct(order)
    requires Trimmed(blobs, order, max, h, a) && Trimmed(blobs, order, max, h, b)
    requires x in b && x !in a
    requires k in a || LastVictim(blobs, order, max, a, k)
    ensures k in b
  {
    assert order[x] <= order[k] || k == h;
  }

  lemma TrimKeepsNoMore(blobs: Blobs, order: Recency.Ticks, max: nat, h: string, a: set<string>, b: set<string>)
    requires order.Keys == blobs.Keys && Recency.Distinct(order)
    requires Trimmed(blobs, order, max, h, a) && Trimmed(blobs, order, max, h, b)
    ensures b <= a
  {
    forall x | x in b ensures x in a {
      if x !in a {
        var g :| LastVictim(blobs, order, max, a, g);
        forall k | k in a + {g} ensures k in b {
          KeptByBoth(blobs, order, max, h, a, b, x, k);
        }
        TotalOfPart(Recency.Only(blobs, a + {g}), Recency.Only(blobs, b));
      }
    }
  }

  // Blobs marked by one ingest carry one tick, and between those a trim may choose: of three blobs where only two fit,
  // either of the tied ones may go.
  lemma TiedBlobsMayEitherGo(blobs: Blobs, order: Recency.Ticks, a: string, b: string, h: string, max: nat)
    requires a != b && a != h && b != h && blobs.Keys == order.Keys == {a, b, h}
    requires order[a] == order[b] && |blobs[a]| == |blobs[b]|
    requires |blobs[a]| + |blobs[h]| <= max < |blobs[a]| + |blobs[b]| + |blobs[h]|
    ensures Trimmed(blobs, order, max, h, {a, h}) && Trimmed(blobs, order, max, h, {b, h})
  {
    TiedTrim(blobs, order, a, b, h, max);
    TiedTrim(blobs, order, b, a, h, max);
  }

  lemma TiedTrim(blobs: Blobs, order: Recency.Ticks, a: string, b: string, h: string, max: nat)
    requires a != b && a != h && b != h && blobs.Keys == order.Keys == {a, b, h} && order[a] == order[b]
    requires |blobs[a]| + |blobs[h]| <= max < |blobs[a]| + |blobs[b]| + |blobs[h]|
    ensures Trimmed(blobs, order, max, h, {a, h})
  {
    var alone, pair := map[h := blobs[h]], map[h := blobs[h], a := blobs[a]];
    assert alone - {h} == map[];
    TotalSplits(alone, h);
    assert pair == alone[a := blobs[a]] && blobs == pair[b := blobs[b]];
    TotalAdds(alone, a, blobs[a]);
    TotalAdds(pair, b, blobs[b]);
    assert Recency.Only(blobs, {a, h}) == pair && Recency.Only(blobs, {a, h} + {b}) == blobs;
    assert LastVictim(blobs, order, max, {a, h}, b);
  }

  // h, x, and whatever was used after x.
  ghost function After(blobs: Blobs, order: Recency.Ticks, h: string, x: string): set<string>
    requires order.Keys == blobs.Keys && x in blobs
  {
    set k | k in blobs && (k == h || k == x || order[k] > order[x])
  }

  // h, and whatever was used no earlier than x.
  ghost function Since(blobs: Blobs, order: Recency.Ticks, h: string, x: string): set<string>
    requires order.Keys == blobs.Keys && x in blobs
  {
    set k | k in blobs && (k == h || order[k] >= order[x])
  }

  // x fits beside what was used after it, and not together with all of its own tick.
  ghost predicate TiedAtTheEdge(blobs: Blobs, order: Recency.Ticks, max: nat, h: string, x: string)
    requires order.Keys == blobs.Keys
  {
    && x in blobs && x != h
    && Total(Recency.Only(blobs, After(blobs, order, h, x))) <= max
    && max < Total(Recency.Only(blobs, Since(blobs, order, h, x)))
  }

  ghost predicate TiedAcross(blobs: Blobs, order: Recency.Ticks, h: string, kept: set<string>, x: string, v: string)
    requires order.Keys == blobs.Keys
  {
    x in blobs && x in kept && x != h && v in blobs && v !in kept && order[x] == order[v]
  }

  // Of two outcomes, one keeps a blob that ties with one it lets go.
  lemma OutcomesTie(blobs: Blobs, order: Recency.Ticks, max: nat, h: string, a: set<string>, b: set<string>, y: string)
    returns (kept: set<string>, x: string, v: string)
    requires order.Keys == blobs.Keys && Trimmed(blobs, order, max, h, a) && Trimmed(blobs, order, max, h, b)
    requires y in b && y !in a
    ensures (kept == a || kept == b) && TiedAcross(blobs, order, h, kept, x, v)
  {
    var g :| LastVictim(blobs, order, max, a, g);
    if a + {g} <= b {
      TotalOfPart(Recency.Only(blobs, a + {g}), Recency.Only(blobs, b));
    }
    var k :| k in a + {g} && k !in b;
    if k in a {
      kept, x, v := a, k, y;
    } else {
      kept, x, v := b, y, g;
    }
  }

  lemma TiedAcrossIsAtTheEdge(blobs: Blobs, order: Recency.Ticks, max: nat, h: string, kept: set<string>, x: string,
                              v: string)
    requires order.Keys == blobs.Keys && Trimmed(blobs, order, max, h, kept) && TiedAcross(blobs, order, h, kept, x, v)
    ensures TiedAtTheEdge(blobs, order, max, h, x)
  {
    var g :| LastVictim(blobs, order, max, kept, g);
    assert After(blobs, order, h, x) <= kept;
    TotalOfPart(Recency.Only(blobs, After(blobs, order, h, x)), Recency.Only(blobs, kept));
    assert kept + {g} <= Since(blobs, order, h, x);
    TotalOfPart(Recency.Only(blobs, kept + {g}), Recency.Only(blobs, Since(blobs, order, h, x)));
  }

  // Letting tied blobs go one by one, any of them but those of core, ends in an outcome.
  lemma {:induction false} LettingTiedGo(blobs: Blobs, order: Recency.Ticks, max: nat, h: string, core: set<string>,
                                         left: set<string>, tick: nat) returns (kept: set<string>)
    requires order.Keys == blobs.Keys && h in core && core <= left <= blobs.Keys
    requires Total(Recency.Only(blobs, core)) <= max < Total(Recency.Only(blobs, left))
    requires forall k | k in left && k !in core :: order[k] == tick
    requires forall k | k in core && k != h :: order[k] >= tick
    requires forall k | k in blobs && k !in left :: order[k] <= tick
    ensures core <= kept <= left && Trimmed(blobs, order, max, h, kept)
    decreases left
  {
    assert core != left;
    var v :| v in left && v !in core;
    var rest := left - {v};
    if Total(Recency.Only(blobs, rest)) <= max {
      kept := rest;
      assert rest + {v} == left;
      assert LastVictim(blobs, order, max, kept, v);
    } else {
      kept := LettingTiedGo(blobs, order, max, h, core, rest, tick);
    }
  }

  lemma KeepingX(blobs: Blobs, order: Recency.Ticks, max: nat, h: string, x: string) returns (kept: set<string>)
    requires order.Keys == blobs.Keys && h in blobs && TiedAtTheEdge(blobs, order, max, h, x)
    ensures x in kept && Trimmed(blobs, order, max, h, kept)
  {
    kept := LettingTiedGo(blobs, order, max, h, After(blobs, order, h, x), Since(blobs, order, h, x), order[x]);
  }

  lemma LettingXGo(blobs: Blobs, order: Recency.Ticks, max: nat, h: string, x: string) returns (kept: set<string>)
    requires order.Keys == blobs.Keys && h in blobs && TiedAtTheEdge(blobs, order, max, h, x)
    ensures x !in kept && Trimmed(blobs, order, max, h, kept)
  {
    var core, left := After(blobs, order, h, x) - {x}, Since(blobs, order, h, x) - {x};
    TotalOfPart(Recency.Only(blobs, core), Recency.Only(blobs, After(blobs, order, h, x)));
    if Total(Recency.Only(blobs, left)) <= max {
      kept := left;
      assert left + {x} == Since(blobs, order, h, x);
      assert LastVictim(blobs, order, max, kept, x);
    } else {
      kept := LettingTiedGo(blobs, order, max, h, core, left, order[x]);
    }
  }

  ghost predicate Outcomes(blobs: Blobs, order: Recency.Ticks, max: nat, h: string, a: set<string>, b: set<string>)
    requires order.Keys == blobs.Keys
  {
    Trimmed(blobs, order, max, h, a) && Trimmed(blobs, order, max, h, b)
  }

  // A trim has more than one outcome exactly when some blob fits beside all that was used after it, and not together with
  // all that carries its own tick: the blobs one ingest marks carry one tick, and between those the map's order decides.
  lemma TrimIsUndetermined(blobs: Blobs, order: Recency.Ticks, max: nat, h: string)
    requires order.Keys == blobs.Keys && h in blobs
    ensures (exists a, b :: a != b && Outcomes(blobs, order, max, h, a, b)) <==>
              exists x :: TiedAtTheEdge(blobs, order, max, h, x)
  {
    if a, b :| a != b && Outcomes(blobs, order, max, h, a, b) {
      var kept, x, v;
      if y :| y in b && y !in a {
        kept, x, v := OutcomesTie(blobs, order, max, h, a, b, y);
      } else {
        var y :| y in a && y !in b;
        kept, x, v := OutcomesTie(blobs, order, max, h, b, a, y);
      }
      TiedAcrossIsAtTheEdge(blobs, order, max, h, kept, x, v);
    }
    if x :| TiedAtTheEdge(blobs, order, max, h, x) {
      var a := KeepingX(blobs, order, max, h, x);
      var b := LettingXGo(blobs, order, max, h, x);
      assert Outcomes(blobs, order, max, h, a, b);
    }
  }

  /* ---- what a manifest's key identifies ---- */

  // A manifest whose fields hold neither of the bytes the key's text puts between them.
  ghost predicate Unseparated(mount: string, files: seq<File>) {
    && '\U{0001}' !in mount
    && forall f | f in files :: '\U{0000}' !in f.path && '\U{0001}' !in f.path && '\U{0001}' !in f.sha
  }

  lemma FieldIsNoLonger(a: string, b: string, x: string, y: string, c: char)
    requires c !in b && a + x == b + y && (x == "" || x[0] == c)
    ensures |b| <= |a|
  {
    assert forall i | 0 <= i < |b| :: (b + y)[i] == b[i] && b[i] in b;
    if x != "" {
      assert (a + x)[|a|] == c;
    } else {
      assert |a| == |b| + |y|;
    }
  }

  lemma FieldEndsAtSeparator(a: string, b: string, x: string, y: string, c: char)
    requires c !in a && c !in b && a + x == b + y
    requires (x == "" || x[0] == c) && (y == "" || y[0] == c)
    ensures a == b && x == y
  {
    FieldIsNoLonger(a, b, x, y, c);
    FieldIsNoLonger(b, a, y, x, c);
    assert a == (a + x)[..|a|] && x == (a + x)[|a|..];
  }

  lemma LedSaysMore(lines: seq<string>)
    requires lines != [] && lines[0] != ""
    ensures |Led(lines)| > 1
  {
  }

  lemma {:induction false} LedLinesAreDetermined(a: seq<string>, b: seq<string>)
    requires forall l | l in a + b :: '\U{0001}' !in l
    requires Led(a) == Led(b)
    ensures a == b
  {
    if a != [] && b != [] {
      var x, y := a[0] + Led(a[1..]), b[0] + Led(b[1..]);
      assert Led(a)[1..] == x && Led(b)[1..] == y;
      assert a[0] in a + b && b[0] in a + b;
      FieldEndsAtSeparator(a[0], b[0], Led(a[1..]), Led(b[1..]), '\U{0001}');
      LedLinesAreDetermined(a[1..], b[1..]);
      assert a == [a[0]] + a[1..] && b == [b[0]] + b[1..];
    }
  }

  lemma {:induction false} LinesAreUnseparated(files: seq<File>, l: string)
    requires forall f | f in files :: '\U{0001}' !in f.path && '\U{0001}' !in f.sha
    requires l in Lines(files)
    ensures '\U{0001}' !in l && '\U{0000}' in l
  {
    if l != Lines(files)[0] {
      assert l in Lines(files[1..]);
      LinesAreUnseparated(files[1..], l);
    }
  }

  // The part of a key's text after the mount.
  function Body(files: seq<File>): string {
    if files == [] then "\U{0001}" else Led(Sorting.Sort(Sorting.Before, Lines(files)))
  }

  lemma BodyDeterminesLines(files: seq<File>, others: seq<File>)
    requires Unseparated("", files) && Unseparated("", others) && Body(files) == Body(others)
    ensures multiset(Lines(files)) == multiset(Lines(others))
  {
    var a, b := Sorting.Sort(Sorting.Before, Lines(files)), Sorting.Sort(Sorting.Before, Lines(others));
    Sorting.SortPermutes(Sorting.Before, Lines(files));
    Sorting.SortPermutes(Sorting.Before, Lines(others));
    Sorting.SameMembers(a, Lines(files));
    Sorting.SameMembers(b, Lines(others));
    forall l | l in a ensures '\U{0001}' !in l && l != "" {
      LinesAreUnseparated(files, l);
    }
    forall l | l in b ensures '\U{0001}' !in l && l != "" {
      LinesAreUnseparated(others, l);
    }
    if files != [] {
      LedSaysMore(a);
    }
    if others != [] {
      LedSaysMore(b);
    }
    if files != [] && others != [] {
      LedLinesAreDetermined(a, b);
    }
  }

  // Two manifests share a key exactly when they name one mount and the same lines, in whatever order they list them.
  lemma KeyIdentifiesManifest(mount: string, files: seq<File>, other: string, others: seq<File>)
    requires Unseparated(mount, files) && Unseparated(other, others)
    ensures KeyText(mount, files) == KeyText(other, others) <==>
              mount == other && multiset(Lines(files)) == multiset(Lines(others))
  {
    assert KeyText(mount, files) == mount + Body(files) && KeyText(other, others) == other + Body(others);
    if KeyText(mount, files) == KeyText(other, others) {
      FieldEndsAtSeparator(mount, other, Body(files), Body(others), '\U{0001}');
      BodyDeterminesLines(files, others);
    }
    if multiset(Lines(files)) == multiset(Lines(others)) {
      ListingOrderIsFree(files, others);
    }
  }

  lemma ListingOrderIsFree(files: seq<File>, others: seq<File>)
    requires multiset(Lines(files)) == multiset(Lines(others))
    ensures Body(files) == Body(others)
  {
    Sorting.StringsAreOrdered();
    Sorting.SortSorts(Sorting.Before, Lines(files));
    Sorting.SortSorts(Sorting.Before, Lines(others));
    Sorting.SortPermutes(Sorting.Before, Lines(files));
    Sorting.SortPermutes(Sorting.Before, Lines(others));
    Sorting.TotalSortIsUnique(Sorting.Before, Sorting.Sort(Sorting.Before, Lines(files)),
                              Sorting.Sort(Sorting.Before, Lines(others)));
    assert |multiset(Lines(files))| == |Lines(files)| && |multiset(Lines(others))| == |Lines(others)|;
  }

  lemma LineNamesOneFile(f: File, g: File)
    requires '\U{0000}' !in f.path && '\U{0000}' !in g.path
    requires f.path + "\U{0000}" + f.sha == g.path + "\U{0000}" + g.sha
    ensures f.path == g.path && f.sha == g.sha
  {
    assert f.path + "\U{0000}" + f.sha == f.path + ("\U{0000}" + f.sha);
    assert g.path + "\U{0000}" + g.sha == g.path + ("\U{0000}" + g.sha);
    FieldEndsAtSeparator(f.path, g.path, "\U{0000}" + f.sha, "\U{0000}" + g.sha, '\U{0000}');
    assert f.sha == ("\U{0000}" + f.sha)[1..] && g.sha == ("\U{0000}" + g.sha)[1..];
  }

  /* ---- what a host that is answered holds ---- */

  datatype Manifest = Manifest(mount: string, files: seq<File>)

  // Exactly the files of the manifest, and under each path a content that hashes to what its line says.
  ghost predicate Serves(u: Setup, host: Host, m: Manifest) {
    && host.mount == m.mount && host.contents.Keys == PathSet(m.files)
    && forall f | f in m.files :: f.path in host.contents && Name(u, host.contents[f.path]) == f.sha
  }

  // The manifests asked for are told apart by their keys: no field holds a separator, and no two of their key texts share
  // a hash.
  ghost predicate ToldApart(u: Setup, asked: set<Manifest>) {
    && (forall m | m in asked :: Unseparated(m.mount, m.files))
    && forall m, n | m in asked && n in asked && Key(u, m.mount, m.files) == Key(u, n.mount, n.files) ::
         KeyText(m.mount, m.files) == KeyText(n.mount, n.files)
  }

  // The host kept under key was built for one of the manifests asked for.
  ghost predicate BuiltFor(u: Setup, key: string, host: Host, asked: set<Manifest>) {
    exists m :: m in asked && key == Key(u, m.mount, m.files) && Serves(u, host, m)
  }

  ghost predicate HostsServe(u: Setup, s: State, asked: set<Manifest>) {
    forall key | key in s.hosts :: BuiltFor(u, key, s.hosts[key], asked)
  }

  lemma {:induction false} LineOf(files: seq<File>, f: File)
    requires f in files
    ensures f.path + "\U{0000}" + f.sha in Lines(files)
  {
    if f != files[0] {
      LineOf(files[1..], f);
    }
  }

  lemma {:induction false} FileOf(files: seq<File>, l: string) returns (f: File)
    requires l in Lines(files)
    ensures f in files && l == f.path + "\U{0000}" + f.sha
  {
    if l == files[0].path + "\U{0000}" + files[0].sha {
      f := files[0];
    } else {
      f := FileOf(files[1..], l);
    }
  }

  // Manifests with the same lines list the same files, up to the sizes they declare.
  lemma SameLinesSameFile(files: seq<File>, others: seq<File>, f: File) returns (g: File)
    requires Unseparated("", files) && Unseparated("", others)
    requires multiset(Lines(files)) == multiset(Lines(others)) && f in files
    ensures g in others && g.path == f.path && g.sha == f.sha
  {
    var l := f.path + "\U{0000}" + f.sha;
    LineOf(files, f);
    assert l in multiset(Lines(files));
    g := FileOf(others, l);
    LineNamesOneFile(f, g);
  }

  lemma SameLinesSamePaths(files: seq<File>, others: seq<File>)
    requires Unseparated("", files) && Unseparated("", others)
    requires multiset(Lines(files)) == multiset(Lines(others))
    ensures PathSet(files) <= PathSet(others)
  {
    forall f | f in files ensures f.path in PathSet(others) {
      var g := SameLinesSameFile(files, others, f);
    }
  }

  lemma ServesTheSameLines(u: Setup, host: Host, m: Manifest, n: Manifest)
    requires Unseparated(m.mount, m.files) && Unseparated(n.mount, n.files)
    requires KeyText(m.mount, m.files) == KeyText(n.mount, n.files) && Serves(u, host, m)
    ensures Serves(u, host, n)
  {
    KeyIdentifiesManifest(m.mount, m.files, n.mount, n.files);
    SameLinesSamePaths(m.files, n.files);
    SameLinesSamePaths(n.files, m.files);
    forall f | f in n.files ensures f.path in host.contents && Name(u, host.contents[f.path]) == f.sha {
      var g := SameLinesSameFile(n.files, m.files, f);
    }
  }

  lemma BuiltHostServes(u: Setup, s: State, m: Manifest, host: Host)
    requires Sound(u, s) && Holds(host, m.mount, m.files, s.blobs)
    ensures Serves(u, host, m)
  {
  }

  // A host that is answered, kept or new, serves the manifest asked for.
  lemma AnsweredServes(u: Setup, s: State, m: Manifest, asked: set<Manifest>, t: State, r: Result<Host>)
    requires Sound(u, s) && HostsServe(u, s, asked) && m in asked && ToldApart(u, asked)
    requires Ingests(u, s, m.mount, m.files, t, r) && r.Ok?
    ensures Serves(u, r.value, m)
  {
    var key := Key(u, m.mount, m.files);
    if key in s.hosts {
      assert BuiltFor(u, key, s.hosts[key], asked);
      var n :| n in asked && key == Key(u, n.mount, n.files) && Serves(u, s.hosts[key], n);
      ServesTheSameLines(u, s.hosts[key], n, m);
    } else {
      BuiltHostServes(u, s, m, r.value);
    }
  }

  lemma IngestKeepsServing(u: Setup, s: State, m: Manifest, asked: set<Manifest>, t: State, r: Result<Host>)
    requires Sound(u, s) && HostsServe(u, s, asked) && m in asked && Ingests(u, s, m.mount, m.files, t, r)
    ensures HostsServe(u, t, asked)
  {
    var key := Key(u, m.mount, m.files);
    if r.Ok? && key !in s.hosts {
      BuiltHostServes(u, s, m, r.value);
      assert BuiltFor(u, key, r.value, asked);
      forall k | k in t.hosts ensures BuiltFor(u, k, t.hosts[k], asked) {
        assert k in s.hosts[key := r.value];
      }
    }
  }

  lemma AskedMore(u: Setup, s: State, asked: set<Manifest>, more: set<Manifest>)
    requires HostsServe(u, s, asked) && asked <= more
    ensures HostsServe(u, s, more)
  {
    forall key | key in s.hosts ensures BuiltFor(u, key, s.hosts[key], more) {
      assert BuiltFor(u, key, s.hosts[key], asked);
    }
  }

  // One operation of a store: some content is sent, or the host of a manifest asked for.
  ghost predicate Operates(u: Setup, s: State, t: State, asked: set<Manifest>) {
    || (exists b, r :: Puts(u, s, b, t, r))
    || (exists m, r :: m in asked && Ingests(u, s, m.mount, m.files, t, r))
  }

  ghost predicate OperatesAt(u: Setup, trace: seq<State>, i: nat, asked: set<Manifest>)
    requires i + 1 < |trace|
  {
    Operates(u, trace[i], trace[i + 1], asked)
  }

  // A store's life so far: it began empty, and contents were sent and manifests asked for in any order.
  ghost predicate Life(u: Setup, trace: seq<State>, asked: set<Manifest>) {
    && trace != [] && trace[0] == State(map[], map[], 0, map[], map[], 0)
    && forall i: nat | i + 1 < |trace| :: OperatesAt(u, trace, i, asked)
  }

  lemma OperationKeepsServing(u: Setup, s: State, t: State, asked: set<Manifest>)
    requires Sound(u, s) && HostsServe(u, s, asked) && Operates(u, s, t, asked)
    ensures Sound(u, t) && HostsServe(u, t, asked)
  {
    if b, r :| Puts(u, s, b, t, r) {
      PutKeepsSound(u, s, b, t, r);
    } else {
      var m, r :| m in asked && Ingests(u, s, m.mount, m.files, t, r);
      IngestKeepsSound(u, s, m.mount, m.files, t, r);
      IngestKeepsServing(u, s, m, asked, t, r);
    }
  }

  lemma {:induction false} LifeKeepsServing(u: Setup, trace: seq<State>, asked: set<Manifest>, i: nat)
    requires Life(u, trace, asked) && i < |trace|
    ensures Sound(u, trace[i]) && HostsServe(u, trace[i], asked)
  {
    if i > 0 {
      LifeKeepsServing(u, trace, asked, i - 1);
      assert OperatesAt(u, trace, i - 1, asked);
      OperationKeepsServing(u, trace[i - 1], trace[i], asked);
    }
  }

  // What the key is for. Whatever was sent and asked for before, and whichever hosts and contents were let go, a host that
  // an ingest answers holds exactly the manifest's files, each with a content of its line's hash.
  lemma HostIsTheManifests(u: Setup, trace: seq<State>, asked: set<Manifest>, i: nat, m: Manifest, t: State,
                           r: Result<Host>)
    requires Life(u, trace, asked) && ToldApart(u, asked) && i < |trace| && m in asked
    requires Ingests(u, trace[i], m.mount, m.files, t, r) && r.Ok?
    ensures Serves(u, r.value, m)
  {
    LifeKeepsServing(u, trace, asked, i);
    AnsweredServes(u, trace[i], m, asked, t, r);
  }

  // Where a field holds the separators it can spell out another line, and two manifests then share a key text.
  lemma SeparatorsSpellLines(mount: string, p: string, s: string, q: string, t: string)
    requires !Sorting.Before(q + "\U{0000}" + t, p + "\U{0000}" + s)
    ensures KeyText(mount, [File(p, s + "\U{0001}" + q + "\U{0000}" + t, 0)]) ==
            KeyText(mount, [File(p, s, 0), File(q, t, 0)])
  {
    var one, two := File(p, s + "\U{0001}" + q + "\U{0000}" + t, 0), [File(p, s, 0), File(q, t, 0)];
    var a, b := p + "\U{0000}" + s, q + "\U{0000}" + t;
    assert two[1..] == [File(q, t, 0)];
    assert Lines(two) == [a] + Lines([File(q, t, 0)]) == [a, b];
    assert [a, b][1..] == [b];
    assert Sorting.Sort(Sorting.Before, [b]) == [b];
    assert Sorting.Sort(Sorting.Before, [a, b]) == [a, b];
    assert Led([a, b]) == "\U{0001}" + a + Led([b]) == "\U{0001}" + a + ("\U{0001}" + b);
    var l := p + "\U{0000}" + (s + "\U{0001}" + q + "\U{0000}" + t);
    assert Lines([one]) == [l];
    assert Led([l]) == "\U{0001}" + l;
    assert l == a + ("\U{0001}" + b);
  }

  lemma PrefixOf(s: string, more: string)
    requires ArtifactUri.HasPrefix(s, HASH_PREFIX)
    ensures ArtifactUri.HasPrefix(s + more, HASH_PREFIX)
  {
    assert (s + more)[..|HASH_PREFIX|] == s[..|HASH_PREFIX|];
  }

  lemma OneFileIsFaultless(clean: string -> bool, seen: set<string>, f: File)
    requires clean(f.path) && ArtifactUri.HasPrefix(f.sha, HASH_PREFIX) && f.path !in seen
    ensures FirstFault(clean, seen, [f]) == None
  {
    assert [f][1..] == [];
  }

  lemma TwoFilesAreFaultless(clean: string -> bool, f: File, g: File)
    requires clean(f.path) && ArtifactUri.HasPrefix(f.sha, HASH_PREFIX)
    requires clean(g.path) && ArtifactUri.HasPrefix(g.sha, HASH_PREFIX) && f.path != g.path
    ensures FirstFault(clean, {}, [f, g]) == None
  {
    OneFileIsFaultless(clean, {} + {f.path}, g);
    assert [f, g][1..] == [g];
  }

  lemma {:induction false} NothingDeclared(files: seq<File>)
    requires forall f | f in files :: f.size == 0
    ensures Declared(0, files) == 0
  {
    if files != [] {
      NothingDeclared(files[1..]);
    }
  }

  lemma BothPassTheCheck(mount: string, clean: string -> bool, f: File, g: File, h: File)
    requires clean == CleanIn(mount) && clean(f.path) && clean(g.path) && clean(h.path)
    requires g.path != h.path && f.size == g.size == h.size == 0
    requires ArtifactUri.HasPrefix(f.sha, HASH_PREFIX) && ArtifactUri.HasPrefix(g.sha, HASH_PREFIX)
    requires ArtifactUri.HasPrefix(h.sha, HASH_PREFIX)
    ensures ManifestFault(mount, [f]) == None && ManifestFault(mount, [g, h]) == None
  {
    OneFileIsFaultless(clean, {}, f);
    TwoFilesAreFaultless(clean, g, h);
    NothingDeclared([f]);
    NothingDeclared([g, h]);
  }

  lemma ServesOnlyOne(u: Setup, host: Host, m: Manifest, n: Manifest, g: File)
    requires g in m.files && g.path !in PathSet(n.files)
    ensures !(Serves(u, host, m) && Serves(u, host, n))
  {
    assert g.path in PathSet(m.files);
  }

  lemma OthersHostAnswers(u: Setup, s: State, one: Manifest, two: Manifest, g: File, t: State, r: Result<Host>)
    requires ManifestFault(one.mount, one.files) == None
    requires one.mount == two.mount && KeyText(one.mount, one.files) == KeyText(two.mount, two.files)
    requires Key(u, two.mount, two.files) in s.hosts && Ingests(u, s, one.mount, one.files, t, r)
    requires g in two.files && g.path !in PathSet(one.files)
    ensures r == Ok(s.hosts[Key(u, two.mount, two.files)])
    ensures Serves(u, r.value, two) ==> !Serves(u, r.value, one)
  {
    ServesOnlyOne(u, s.hosts[Key(u, two.mount, two.files)], two, one, g);
  }

  // A manifest of one file whose hash field spells out another line, and the manifest of the two files it spells.
  function Spelling(mount: string, p: string, sp: string, q: string, sq: string): Manifest {
    Manifest(mount, [File(p, sp + "\U{0001}" + q + "\U{0000}" + sq, 0)])
  }

  function Spelled(mount: string, p: string, sp: string, q: string, sq: string): Manifest {
    Manifest(mount, [File(p, sp, 0), File(q, sq, 0)])
  }

  lemma SpellingIsHashed(p: string, sp: string, q: string, sq: string)
    requires ArtifactUri.HasPrefix(sp, HASH_PREFIX)
    ensures ArtifactUri.HasPrefix(sp + "\U{0001}" + q + "\U{0000}" + sq, HASH_PREFIX)
  {
    PrefixOf(sp, "\U{0001}");
    PrefixOf(sp + "\U{0001}", q);
    PrefixOf(sp + "\U{0001}" + q, "\U{0000}");
    PrefixOf(sp + "\U{0001}" + q + "\U{0000}", sq);
  }

  lemma SpellingPasses(mount: string, clean: string -> bool, p: string, sp: string, q: string, sq: string)
    requires clean == CleanIn(mount) && clean(p) && clean(q) && p != q
    requires ArtifactUri.HasPrefix(sp, HASH_PREFIX) && ArtifactUri.HasPrefix(sq, HASH_PREFIX)
    ensures ManifestFault(mount, Spelling(mount, p, sp, q, sq).files) == None
    ensures ManifestFault(mount, Spelled(mount, p, sp, q, sq).files) == None
  {
    SpellingIsHashed(p, sp, q, sq);
    BothPassTheCheck(mount, clean, Spelling(mount, p, sp, q, sq).files[0], File(p, sp, 0), File(q, sq, 0));
  }

  lemma SpelledHasMore(mount: string, p: string, sp: string, q: string, sq: string)
    requires p != q
    ensures File(q, sq, 0) in Spelled(mount, p, sp, q, sq).files
    ensures q !in PathSet(Spelling(mount, p, sp, q, sq).files)
  {
    assert Spelled(mount, p, sp, q, sq).files[1] == File(q, sq, 0);
    assert forall f | f in Spelling(mount, p, sp, q, sq).files :: f.path == p;
  }

  lemma SpellingSharesTheKey(mount: string, p: string, sp: string, q: string, sq: string)
    requires !Sorting.Before(q + "\U{0000}" + sq, p + "\U{0000}" + sp)
    ensures KeyText(mount, Spelling(mount, p, sp, q, sq).files) == KeyText(mount, Spelled(mount, p, sp, q, sq).files)
  {
    SeparatorsSpellLines(mount, p, sp, q, sq);
  }

  // The condition is needed: both manifests pass the check, and whoever asks for the one file is answered with the host
  // kept for the two.
  lemma SeparatorsCollide(u: Setup, s: State, one: Manifest, two: Manifest, clean: string -> bool,
                          p: string, sp: string, q: string, sq: string, t: State, r: Result<Host>)
    requires clean == CleanIn(one.mount) && clean(p) && clean(q) && p != q
    requires ArtifactUri.HasPrefix(sp, HASH_PREFIX) && ArtifactUri.HasPrefix(sq, HASH_PREFIX)
    requires !Sorting.Before(q + "\U{0000}" + sq, p + "\U{0000}" + sp)
    requires one == Spelling(one.mount, p, sp, q, sq) && two == Spelled(one.mount, p, sp, q, sq)
    requires Key(u, two.mount, two.files) in s.hosts && Ingests(u, s, one.mount, one.files, t, r)
    ensures ManifestFault(one.mount, one.files) == None && ManifestFault(two.mount, two.files) == None
    ensures r == Ok(s.hosts[Key(u, two.mount, two.files)])
    ensures Serves(u, r.value, two) ==> !Serves(u, r.value, one)
  {
    SpellingPasses(one.mount, clean, p, sp, q, sq);
    SpellingSharesTheKey(one.mount, p, sp, q, sq);
    SpelledHasMore(one.mount, p, sp, q, sq);
    OthersHostAnswers(u, s, one, two, File(q, sq, 0), t, r);
  }

  /* ---- the store itself ---- */

  // Dropping repeats from a sorted list.
  function Compacted(s: seq<string>): (r: seq<string>) {
    if |s| < 2 then s
    else if s[|s| - 1] == s[|s| - 2] then Compacted(s[..|s| - 1])
    else Compacted(s[..|s| - 1]) + [s[|s| - 1]]
  }

  // A sorted list without its repeats is strictly ascending and has the same members.
  lemma {:induction false} CompactedIsAscending(s: seq<string>)
    requires Sorting.Sorted(Sorting.Before, s)
    ensures Sorting.Ascending(Compacted(s)) && forall x :: x in Compacted(s) <==> x in s
    ensures s != [] ==> Compacted(s) != [] && Compacted(s)[|Compacted(s)| - 1] == s[|s| - 1]
  {
    if |s| >= 2 {
      var front, last := s[..|s| - 1], s[|s| - 1];
      CompactedIsAscending(front);
      assert s == front + [last];
      var r := Compacted(front);
      Sorting.BeforeIsAsymmetric(front[|front| - 1], last);
      if front[|front| - 1] != last {
        forall i | 0 <= i < |r| ensures Sorting.Before(r[i], last) {
          if i < |r| - 1 {
            Sorting.BeforeIsTransitive(r[i], r[|r| - 1], last);
          }
        }
      }
    }
  }

  // The in-place form. It compares each element with its neighbour in the array being overwritten, which is sound
  // because a slot is overwritten only with what it already holds, or after it has been compared.
  method Compact(a: array<string>) returns (n: nat)
    modifies a
    ensures n <= a.Length && a[..n] == Compacted(old(a[..]))
  {
    n := 0;
    ghost var was := a[..];
    for i := 0 to a.Length
      invariant n <= i && a[..n] == Compacted(was[..i])
      invariant forall k | i <= k < a.Length :: a[k] == was[k]
      invariant i > 0 ==> a[i - 1] == was[i - 1]
    {
      var v := a[i];
      assert was[..i + 1][..i] == was[..i];
      if i == 0 || v != a[i - 1] {
        a[n] := v;
        n := n + 1;
      }
    }
    assert was[..a.Length] == was;
  }

  /* ---- one pass over a manifest ---- */

  function Marked(order: Recency.Ticks, blobs: Blobs, files: seq<File>, tick: nat): Recency.Ticks {
    if files == [] then order
    else
      var rest := Marked(order, blobs, files[..|files| - 1], tick);
      var f := files[|files| - 1];
      if f.sha in blobs then rest[f.sha := tick] else rest
  }

  function Found(blobs: Blobs, files: seq<File>): map<string, Bytes> {
    if files == [] then map[]
    else
      var rest := Found(blobs, files[..|files| - 1]);
      var f := files[|files| - 1];
      if f.sha in blobs then rest[f.path := blobs[f.sha]] else rest
  }

  function Lost(blobs: Blobs, files: seq<File>): seq<string> {
    if files == [] then []
    else
      var rest := Lost(blobs, files[..|files| - 1]);
      var f := files[|files| - 1];
      if f.sha in blobs then rest else rest + [f.sha]
  }

  lemma LastFile(files: seq<File>)
    requires files != []
    ensures files == files[..|files| - 1] + [files[|files| - 1]]
    ensures Hashes(files) == Hashes(files[..|files| - 1]) + {files[|files| - 1].sha}
  {
    var front := files[..|files| - 1];
    assert files == front + [files[|files| - 1]];
  }

  lemma {:induction false} MarkedIsBumped(order: Recency.Ticks, blobs: Blobs, files: seq<File>, tick: nat)
    requires order.Keys == blobs.Keys
    ensures Marked(order, blobs, files, tick) == Bumped(order, files, tick)
  {
    if files == [] {
      assert Bumped(order, files, tick) == order;
    } else {
      LastFile(files);
      MarkedIsBumped(order, blobs, files[..|files| - 1], tick);
    }
  }

  lemma {:induction false} LostAreMissing(blobs: Blobs, files: seq<File>)
    ensures forall h :: h in Lost(blobs, files) <==> h in Hashes(files) && h !in blobs
  {
    if files != [] {
      LastFile(files);
      LostAreMissing(blobs, files[..|files| - 1]);
    }
  }

  // Distinct paths keep each file's own content.
  lemma {:induction false} FoundKeepsEach(blobs: Blobs, files: seq<File>, i: nat)
    requires DistinctPaths(files) && i < |files| && files[i].sha in blobs
    ensures files[i].path in Found(blobs, files) && Found(blobs, files)[files[i].path] == blobs[files[i].sha]
  {
    if i < |files| - 1 {
      FoundKeepsEach(blobs, files[..|files| - 1], i);
    }
  }

  lemma {:induction false} FoundAreNamed(blobs: Blobs, files: seq<File>)
    ensures Found(blobs, files).Keys <= PathSet(files)
  {
    if files != [] {
      var front, last := files[..|files| - 1], files[|files| - 1];
      FoundAreNamed(blobs, front);
      LastFile(files);
      assert last in files && last.path in PathSet(files);
      assert PathSet(front) <= PathSet(files);
    }
  }

  lemma FoundAreHeld(blobs: Blobs, files: seq<File>)
    requires DistinctPaths(files) && Lost(blobs, files) == []
    ensures Holds(Host("", Found(blobs, files)), "", files, blobs)
  {
    LostAreMissing(blobs, files);
    FoundAreNamed(blobs, files);
    forall f | f in files
      ensures f.path in Found(blobs, files) && f.sha in blobs && Found(blobs, files)[f.path] == blobs[f.sha]
    {
      var i :| 0 <= i < |files| && files[i] == f;
      assert f.sha in Hashes(files) && f.sha !in Lost(blobs, files);
      FoundKeepsEach(blobs, files, i);
    }
  }

  ghost predicate Hex(u: Setup) {
    forall b :: u.digest(b) != ""
  }

  // Trimming under way: kept is left, and last was the latest to go.
  ghost predicate Trimming(blobs: Blobs, order: Recency.Ticks, max: nat, h: string, kept: set<string>, last: string)
    requires order.Keys == blobs.Keys
  {
    && h in kept && kept <= blobs.Keys
    && (forall g, k | g in blobs && g !in kept && k in kept && k != h :: order[g] <= order[k])
    && (kept == blobs.Keys || LastVictim(blobs, order, max, kept, last))
  }

  // Dropping the oldest other blob is one more step of trimming.
  lemma VictimLeaves(blobs: Blobs, order: Recency.Ticks, max: nat, h: string, kept: set<string>, last: string, v: string)
    requires order.Keys == blobs.Keys && Trimming(blobs, order, max, h, kept, last)
    requires Recency.Oldest(Recency.Only(order, kept) - {h}, v)
    requires Total(Recency.Only(blobs, kept)) > max
    ensures v in kept && Trimming(blobs, order, max, h, kept - {v}, v)
    ensures Recency.Only(blobs, kept - {v}) == Recency.Only(blobs, kept) - {v}
    ensures Recency.Only(order, kept - {v}) == Recency.Only(order, kept) - {v}
    ensures Total(Recency.Only(blobs, kept - {v})) == Total(Recency.Only(blobs, kept)) - |blobs[v]|
  {
    assert kept - {v} + {v} == kept;
    forall k | k in kept && k != h ensures order[v] <= order[k] {
      assert k in Recency.Only(order, kept) - {h};
    }
    assert Recency.Only(blobs, kept - {v}) == Recency.Only(blobs, kept) - {v};
    TotalSplits(Recency.Only(blobs, kept), v);
  }

  lemma AloneIsSmall(blobs: Blobs, order: Recency.Ticks, h: string)
    requires h in blobs && order.Keys == blobs.Keys && order - {h} == map[]
    ensures Total(blobs) == |blobs[h]|
  {
    TotalSplits(blobs, h);
    forall k | k in blobs ensures k == h {
      assert k !in order - {h};
    }
    assert blobs - {h} == map[];
  }

  lemma NamesAreNotEmpty(u: Setup, s: State)
    requires Sound(u, s)
    ensures "" !in s.blobs
  {
    assert forall b :: |Name(u, b)| >= |HASH_PREFIX|;
  }

  class UploadStore {
    var blobs: Blobs
    var order: Recency.Ticks
    var bytes: nat
    var hosts: map<string, Host>
    var used: Recency.Ticks
    var tick: nat
    const setup: Setup
    const takesFiles: bool

    // Every manifest that has been asked for.
    ghost var asked: set<Manifest>

    function Now(): State
      reads this
    {
      State(blobs, order, bytes, hosts, used, tick)
    }

    ghost predicate Valid()
      reads this
    {
      Sound(setup, Now()) && Hex(setup) && "" !in hosts && HostsServe(setup, Now(), asked)
    }

    constructor (maxBytes: int, digest: Bytes -> string, takesFiles: bool)
      requires forall b :: digest(b) != ""
      ensures Valid() && Now() == State(map[], map[], 0, map[], map[], 0) && asked == {}
      ensures setup.max == (if maxBytes <= 0 then DEFAULT_UPLOAD_BYTES else maxBytes) && setup.digest == digest
    {
      blobs, order, bytes := map[], map[], 0;
      hosts, used, tick := map[], map[], 0;
      setup := Setup(if maxBytes <= 0 then DEFAULT_UPLOAD_BYTES else maxBytes, digest);
      this.takesFiles := takesFiles;
      asked := {};
    }

    method Put(b: Bytes) returns (r: Result<string>)
      requires Valid()
      modifies `blobs, `order, `bytes, `tick
      ensures Valid() && Puts(setup, old(Now()), b, Now(), r)
    {
      ghost var before := Now();
      if |b| > setup.max {
        return Err(BlobTooBig);
      }
      NamesAreNotEmpty(setup, before);
      var h := Store(b);
      r := Ok(h);
      PutKeepsSound(setup, before, b, Now(), r);
    }

    method Store(b: Bytes) returns (h: string)
      requires order.Keys == blobs.Keys && "" !in blobs && bytes == Total(blobs) && |b| <= setup.max
      modifies `blobs, `order, `bytes, `tick
      ensures Puts(setup, old(Now()), b, Now(), Ok(h))
    {
      h := Name(setup, b);
      tick := tick + 1;
      order := order[h := tick];
      if h !in blobs {
        TotalAdds(blobs, h, b);
        blobs := blobs[h := b];
        bytes := bytes + |b|;
        TrimBlobs(h);
      }
    }

    method UploadBlobs(contents: seq<Bytes>)
      returns (r: Result<seq<string>>, ghost sent: seq<Bytes>, ghost trace: seq<State>)
      requires Valid()
      modifies `blobs, `order, `bytes, `tick
      ensures Valid()
      ensures PutsAll(setup, trace, sent) && trace[0] == old(Now()) && trace[|sent|] == Now()
      ensures !takesFiles ==> r == Err(TakesNoFiles) && sent == []
      ensures r.Ok? ==> sent == contents && r.value == Names(setup, contents)
      ensures takesFiles && r.Err? ==>
                |sent| < |contents| && sent == contents[..|sent|]
                && r == Err(BlobTooBig) && |contents[|sent|]| > setup.max
    {
      if !takesFiles {
        return Err(TakesNoFiles), [], [Now()];
      }
      r, sent, trace := PutAll(contents);
    }

    // The contents one call sends, stored in turn; the first one over the limit ends the call, and what came before it
    // stays.
    method PutAll(contents: seq<Bytes>)
      returns (r: Result<seq<string>>, ghost sent: seq<Bytes>, ghost trace: seq<State>)
      requires Valid() && takesFiles
      modifies `blobs, `order, `bytes, `tick
      ensures Valid()
      ensures PutsAll(setup, trace, sent) && trace[0] == old(Now()) && trace[|sent|] == Now()
      ensures r.Ok? ==> sent == contents && r.value == Names(setup, contents)
      ensures r.Err? ==>
                |sent| < |contents| && sent == contents[..|sent|]
                && r == Err(BlobTooBig) && |contents[|sent|]| > setup.max
    {
      sent, trace := [], [Now()];
      var names := [];
      for i := 0 to |contents|
        invariant |sent| == i && sent == contents[..i]
        invariant Valid() && |trace| == i + 1 && trace[0] == old(Now()) && trace[i] == Now()
        invariant PutsAll(setup, trace, sent)
        invariant names == Names(setup, sent)
      {
        var h;
        h, names, trace := PutNext(contents[i], names, trace, sent);
        if h.Err? {
          return Err(h.why), sent, trace;
        }
        assert contents[..i + 1] == sent + [contents[i]];
        sent := contents[..i + 1];
      }
      assert contents[..|contents|] == contents;
      r := Ok(names);
    }

    method PutNext(b: Bytes, names: seq<string>, ghost trace: seq<State>, ghost sent: seq<Bytes>)
      returns (r: Result<string>, more: seq<string>, ghost longer: seq<State>)
      requires Valid() && |trace| == |sent| + 1 && trace[|sent|] == Now() && PutsAll(setup, trace, sent)
      requires names == Names(setup, sent)
      modifies `blobs, `order, `bytes, `tick
      ensures Valid()
      ensures r.Ok? ==>
                && |longer| == |sent| + 2 && longer[0] == trace[0] && longer[|sent| + 1] == Now()
                && PutsAll(setup, longer, sent + [b]) && more == Names(setup, sent + [b])
      ensures r.Err? ==> r == Err(BlobTooBig) && |b| > setup.max && longer == trace && Now() == old(Now())
    {
      r := Put(b);
      longer, more := trace, names;
      if r.Ok? {
        PutsOneMore(setup, trace, sent, b, Now());
        longer := trace + [Now()];
        more := names + [r.value];
        assert (sent + [b])[..|sent|] == sent;
      }
    }

    method TrimBlobs(h: string)
      requires order.Keys == blobs.Keys && "" !in blobs && bytes == Total(blobs)
      requires h in blobs && |blobs[h]| <= setup.max
      modifies `blobs, `order, `bytes
      ensures Trimmed(old(blobs), old(order), setup.max, h, blobs.Keys) && bytes == Total(blobs)
      ensures blobs == Recency.Only(old(blobs), blobs.Keys) && order == Recency.Only(old(order), blobs.Keys)
    {
      ghost var all, stamps := blobs, order;
      ghost var kept, last := blobs.Keys, "";
      while bytes > setup.max
        invariant Trimming(all, stamps, setup.max, h, kept, last)
        invariant blobs == Recency.Only(all, kept) && order == Recency.Only(stamps, kept) && bytes == Total(blobs)
        decreases kept
      {
        kept, last := DropOldest(h, all, stamps, kept, last);
      }
      assert blobs.Keys == kept;
    }

    // One victim. The scan always finds one: content alone over the limit was refused before it was stored.
    method DropOldest(h: string, ghost all: Blobs, ghost stamps: Recency.Ticks, ghost kept: set<string>,
                      ghost last: string)
      returns (ghost left: set<string>, ghost gone: string)
      requires stamps.Keys == all.Keys && Trimming(all, stamps, setup.max, h, kept, last)
      requires blobs == Recency.Only(all, kept) && order == Recency.Only(stamps, kept) && bytes == Total(blobs)
      requires "" !in all && |all[h]| <= setup.max < bytes
      modifies `blobs, `order, `bytes
      ensures gone in kept && left == kept - {gone}
      ensures Trimming(all, stamps, setup.max, h, left, gone)
      ensures blobs == Recency.Only(all, left) && order == Recency.Only(stamps, left) && bytes == Total(blobs)
    {
      var oldest := Recency.OldestKey(order - {h});
      if oldest == "" {
        AloneIsSmall(blobs, order, h);
        assert false;
      }
      VictimLeaves(all, stamps, setup.max, h, kept, last, oldest);
      bytes := bytes - |blobs[oldest]|;
      blobs := blobs - {oldest};
      order := order - {oldest};
      left, gone := kept - {oldest}, oldest;
    }

    method Ingest(mount: string, files: seq<File>) returns (r: Result<Host>)
      requires Valid()
      modifies this
      ensures Valid()
      ensures !takesFiles ==> r == Err(TakesNoFiles) && Now() == old(Now())
      ensures takesFiles ==> Ingests(setup, old(Now()), mount, files, Now(), r)
      ensures asked == old(asked) + {Manifest(mount, files)}
      ensures r.Ok? && ToldApart(setup, asked) ==> Serves(setup, r.value, Manifest(mount, files))
    {
      asked := asked + {Manifest(mount, files)};
      AskedMore(setup, Now(), old(asked), asked);
      if !takesFiles {
        return Err(TakesNoFiles);
      }
      ghost var before := Now();
      var fault := CheckManifest(mount, files);
      if fault.Some? {
        return Err(fault.value);
      }
      r := Answer(mount, files);
      IngestKeepsSound(setup, before, mount, files, Now(), r);
      IngestKeepsServing(setup, before, Manifest(mount, files), asked, Now(), r);
      if r.Ok? && ToldApart(setup, asked) {
        AnsweredServes(setup, before, Manifest(mount, files), asked, Now(), r);
      }
    }

    method Answer(mount: string, files: seq<File>) returns (r: Result<Host>)
      requires ManifestFault(mount, files) == None && Hex(setup) && "" !in hosts
      requires order.Keys == blobs.Keys && used.Keys == hosts.Keys
      requires Recency.Distinct(used) && Recency.Bounded(used, tick)
      modifies `order, `hosts, `used, `tick
      ensures Ingests(setup, old(Now()), mount, files, Now(), r) && "" !in hosts
    {
      FaultlessIsClean(mount, files);
      var key := Key(setup, mount, files);
      if key in hosts {
        tick := tick + 1;
        used := used[key := tick];
        r := Ok(hosts[key]);
      } else {
        r := LookUp(mount, files, key);
      }
    }

    method LookUp(mount: string, files: seq<File>, key: string) returns (r: Result<Host>)
      requires DistinctPaths(files) && key !in hosts && key != "" && "" !in hosts
      requires order.Keys == blobs.Keys && used.Keys == hosts.Keys
      requires Recency.Distinct(used) && Recency.Bounded(used, tick)
      modifies `order, `hosts, `used, `tick
      ensures LooksUp(old(Now()), mount, files, key, Now(), r) && "" !in hosts
    {
      tick := tick + 1;
      var contents, missing := Gather(files);
      if missing != [] {
        assert missing[0] in missing;
        var hashes := SortedOnce(missing);
        r := Err(BlobsMissing(hashes));
      } else {
        assert forall h | h in Hashes(files) :: h !in missing;
        var host := Host(mount, contents);
        KeepHost(key, host);
        r := Ok(host);
      }
    }

    static method CheckManifest(mount: string, files: seq<File>) returns (fault: Option<Refusal>)
      ensures fault == ManifestFault(mount, files)
    {
      var total;
      fault, total := CheckFiles(CleanIn(mount), files);
      if fault.None? && total > DESIGN_FILES_MAX_BYTES {
        fault := Some(DesignTooBig);
      }
    }

    static method CheckFiles(clean: string -> bool, files: seq<File>) returns (fault: Option<Refusal>, total: int)
      ensures fault == FirstFault(clean, {}, files)
      ensures fault.None? ==> total == Declared(0, files)
    {
      total := 0;
      var seen := {};
      assert files[0..] == files;
      for i := 0 to |files|
        invariant FirstFault(clean, {}, files) == FirstFault(clean, seen, files[i..])
        invariant Declared(0, files) == Declared(total, files[i..])
      {
        var f := files[i];
        FaultsInTurn(clean, seen, total, files, i);
        fault := FileFault(clean, seen, f);
        if fault.Some? {
          return;
        }
        seen := seen + {f.path};
        total := Wrap64(total + f.size);
      }
      fault := None;
    }

    // The pass over a manifest's files: what is held is marked as used and gathered, what is not is listed.
    method Gather(files: seq<File>) returns (contents: map<string, Bytes>, missing: seq<string>)
      requires DistinctPaths(files) && order.Keys == blobs.Keys
      modifies `order
      ensures order == Bumped(old(order), files, tick)
      ensures forall h :: h in missing <==> h in Hashes(files) && h !in blobs
      ensures missing == [] ==> Holds(Host("", contents), "", files, blobs)
    {
      contents, missing := map[], [];
      ghost var before := order;
      for i := 0 to |files|
        invariant order == Marked(before, blobs, files[..i], tick)
        invariant contents == Found(blobs, files[..i])
        invariant missing == Lost(blobs, files[..i])
      {
        var f := files[i];
        assert files[..i + 1][..i] == files[..i];
        if f.sha in blobs {
          order := order[f.sha := tick];
          contents := contents[f.path := blobs[f.sha]];
        } else {
          missing := missing + [f.sha];
        }
      }
      assert files[..|files|] == files;
      MarkedIsBumped(before, blobs, files, tick);
      LostAreMissing(blobs, files);
      if missing == [] {
        FoundAreHeld(blobs, files);
      }
    }

    static method SortedOnce(missing: seq<string>) returns (hashes: seq<string>)
      ensures Sorting.Ascending(hashes) && forall h :: h in hashes <==> h in missing
    {
      var sorted := Sorting.Sort(Sorting.Before, missing);
      Sorting.StringsAreOrdered();
      Sorting.SortSorts(Sorting.Before, missing);
      Sorting.SortPermutes(Sorting.Before, missing);
      Sorting.SameMembers(sorted, missing);
      var a := new string[|sorted|](i requires 0 <= i < |sorted| => sorted[i]);
      assert a[..] == sorted;
      var n := Compact(a);
      CompactedIsAscending(sorted);
      hashes := a[..n];
    }

    method KeepHost(key: string, host: Host)
      requires used.Keys == hosts.Keys && key !in hosts && "" !in hosts && key != "" && tick > 0
      requires Recency.Distinct(used) && Recency.Bounded(used, tick - 1)
      modifies `hosts, `used
      ensures "" !in hosts
      ensures var all, stamps := old(hosts)[key := host], old(used)[key := tick];
              && hosts == Recency.Only(all, hosts.Keys) && used == Recency.Only(stamps, hosts.Keys)
              && hosts.Keys == Recency.Keepers(stamps, UPLOAD_HOSTS)
    {
      hosts := hosts[key := host];
      used := used[key := tick];
      ghost var all, stamps, kept := hosts, used, hosts.Keys;
      while |hosts| > UPLOAD_HOSTS
        invariant kept <= all.Keys && hosts == Recency.Only(all, kept) && used == Recency.Only(stamps, kept)
        invariant Recency.Keepers(used, UPLOAD_HOSTS) == Recency.Keepers(stamps, UPLOAD_HOSTS)
        decreases kept
      {
        kept := LetGo(all, stamps, kept);
      }
      assert used.Keys == kept == hosts.Keys && |used| == |used.Keys| && |hosts| == |hosts.Keys|;
      Recency.KeepersWithinLimit(used, UPLOAD_HOSTS);
    }

    method LetGo(ghost all: map<string, Host>, ghost stamps: Recency.Ticks, ghost kept: set<string>)
      returns (ghost left: set<string>)
      requires stamps.Keys == all.Keys && kept <= all.Keys && "" !in all && Recency.Distinct(stamps)
      requires hosts == Recency.Only(all, kept) && used == Recency.Only(stamps, kept) && |hosts| > UPLOAD_HOSTS
      modifies `hosts, `used
      ensures left < kept && hosts == Recency.Only(all, left) && used == Recency.Only(stamps, left)
      ensures Recency.Keepers(used, UPLOAD_HOSTS) == Recency.Keepers(old(used), UPLOAD_HOSTS)
    {
      assert used.Keys == kept == hosts.Keys && |hosts| == |hosts.Keys|;
      var oldest := Recency.OldestKey(used);
      Recency.OldestGoes(all, stamps, kept, UPLOAD_HOSTS, oldest);
      hosts := hosts - {oldest};
      used := used - {oldest};
      left := kept - {oldest};
    }
  }
}

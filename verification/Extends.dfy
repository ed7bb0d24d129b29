// Config inheritance (service/extends.go) and the layering it is made of (mergeConfig and mergeChecklists in
// service/overlay.go).
module Extends {
  import opened Paths
  import opened Sorting

  datatype Checklist = Checklist(name: string, manifest: string)

  // The lists of files that accumulate.
  datatype Files = Files(profiles: seq<string>, params: seq<string>, symbolPaths: seq<string>, libraries: seq<string>,
                         querySets: seq<string>)

  // The conventions and the intent are values of which one is in effect; base is the project extended, if any; modules and docs are libraries sent by value.
  datatype Config = Config(conventions: Option<string>, intent: Option<string>, files: Files,
                           checklists: seq<Checklist>, base: string, modules: seq<string>,
                           docs: map<string, string>)

  const EMPTY := Config(None, None, Files([], [], [], [], []), [], "", [], map[])

  function Get(c: Option<Config>): Config {
    if c.Some? then c.value else EMPTY
  }

  /* ---- layering checklists by name ---- */

  function Put(s: seq<Checklist>, c: Checklist): seq<Checklist> {
    if s == [] then [c]
    else if s[0].name == c.name then [c] + s[1..]
    else [s[0]] + Put(s[1..], c)
  }

  function PutAll(s: seq<Checklist>, cs: seq<Checklist>): seq<Checklist>
    decreases |cs|
  {
    if cs == [] then s else PutAll(Put(s, cs[0]), cs[1..])
  }

  function NamesOf(s: seq<Checklist>): (r: seq<string>)
    ensures |r| == |s| && forall i | 0 <= i < |s| :: r[i] == s[i].name
  {
    seq(|s|, i requires 0 <= i < |s| => s[i].name)
  }

  ghost predicate Distinct(s: seq<Checklist>) {
    NoRepeats(NamesOf(s))
  }

  lemma {:induction false} PutAt(s: seq<Checklist>, c: Checklist, i: nat)
    requires i < |s| && s[i].name == c.name && forall j | 0 <= j < i :: s[j].name != c.name
    ensures Put(s, c) == s[i := c]
  {
    if i > 0 {
      PutAt(s[1..], c, i - 1);
    }
  }

  lemma {:induction false} PutNew(s: seq<Checklist>, c: Checklist)
    requires c.name !in NamesOf(s)
    ensures Put(s, c) == s + [c]
  {
    if s != [] {
      assert NamesOf(s)[0] in NamesOf(s);
      assert c.name !in NamesOf(s[1..]) by {
        assert NamesOf(s[1..]) == NamesOf(s)[1..];
      }
      PutNew(s[1..], c);
    }
  }

  function FirstAt(s: seq<Checklist>, n: string, i: nat): (k: nat)
    requires i < |s| && s[i].name == n
    ensures k <= i && s[k].name == n && forall j | 0 <= j < k :: s[j].name != n
  {
    if s[0].name == n then 0 else FirstAt(s[1..], n, i - 1) + 1
  }

  lemma PutNames(s: seq<Checklist>, c: Checklist)
    ensures c.name in NamesOf(s) ==> NamesOf(Put(s, c)) == NamesOf(s)
    ensures c.name !in NamesOf(s) ==> NamesOf(Put(s, c)) == NamesOf(s) + [c.name]
  {
    if c.name in NamesOf(s) {
      var i :| 0 <= i < |s| && NamesOf(s)[i] == c.name;
      var k := FirstAt(s, c.name, i);
      PutAt(s, c, k);
      assert NamesOf(s[k := c]) == NamesOf(s);
    } else {
      PutNew(s, c);
      assert NamesOf(s + [c]) == NamesOf(s) + [c.name];
    }
  }

  lemma {:induction false} PutAllAppend(s: seq<Checklist>, cs: seq<Checklist>, c: Checklist)
    ensures PutAll(s, cs + [c]) == Put(PutAll(s, cs), c)
    decreases |cs|
  {
    if cs == [] {
      assert cs + [c] == [c] && [c][1..] == [];
    } else {
      assert (cs + [c])[1..] == cs[1..] + [c];
      PutAllAppend(Put(s, cs[0]), cs[1..], c);
    }
  }

  // Each checklist of b replaces the first of its name, or is appended.
  method MergeChecklists(a: seq<Checklist>, b: seq<Checklist>) returns (out: seq<Checklist>)
    ensures out == PutAll(a, b)
  {
    out := a;
    for k := 0 to |b|
      invariant out == PutAll(a, b[..k])
    {
      var c, replaced, was := b[k], false, out;
      for i := 0 to |out|
        invariant out == was && !replaced
        invariant forall j | 0 <= j < i :: out[j].name != c.name
      {
        if out[i].name == c.name {
          PutAt(out, c, i);
          out, replaced := out[i := c], true;
          break;
        }
      }
      if !replaced {
        PutNew(out, c);
        out := out + [c];
      }
      assert b[..k + 1] == b[..k] + [c];
      PutAllAppend(a, b[..k], c);
    }
    assert b[..|b|] == b;
  }

  /* ---- what layering says ---- */

  // The names in the order they first come.
  function FirstOf(names: seq<string>): seq<string>
    decreases |names|
  {
    if names == [] then []
    else
      var rest, n := FirstOf(names[..|names| - 1]), names[|names| - 1];
      if n in rest then rest else rest + [n]
  }

  function LastNamed(s: seq<Checklist>, n: string): Option<Checklist>
    decreases |s|
  {
    if s == [] then None
    else if s[|s| - 1].name == n then Some(s[|s| - 1])
    else LastNamed(s[..|s| - 1], n)
  }

  // The names of s in the order they first come, each with what s says of it last.
  ghost predicate Layers(s: seq<Checklist>, t: seq<Checklist>) {
    NamesOf(t) == FirstOf(NamesOf(s)) && forall i | 0 <= i < |t| :: LastNamed(s, t[i].name) == Some(t[i])
  }

  lemma {:induction false} FirstsAreDistinct(names: seq<string>)
    ensures NoRepeats(FirstOf(names))
    decreases |names|
  {
    if names != [] {
      FirstsAreDistinct(names[..|names| - 1]);
    }
  }

  lemma LayerOneMore(s: seq<Checklist>, t: seq<Checklist>, c: Checklist)
    requires Layers(s, t)
    ensures Layers(s + [c], Put(t, c))
  {
    assert (s + [c])[..|s|] == s;
    assert NamesOf(s + [c])[..|s|] == NamesOf(s);
    FirstsAreDistinct(NamesOf(s));
    if c.name in NamesOf(t) {
      var i :| 0 <= i < |t| && NamesOf(t)[i] == c.name;
      forall j | 0 <= j < |t| && j != i ensures t[j].name != c.name {
        assert NamesOf(t)[j] != NamesOf(t)[i];
      }
      PutAt(t, c, i);
      assert NamesOf(t[i := c]) == NamesOf(t);
    } else {
      PutNew(t, c);
      forall j | 0 <= j < |t| ensures t[j].name != c.name {
        assert NamesOf(t)[j] in NamesOf(t);
      }
      assert NamesOf(t + [c]) == NamesOf(t) + [c.name];
    }
  }

  // Layering over nothing: each name once, in the order it first came, as it was last declared.
  lemma {:induction false} LayeringIsLastByFirst(s: seq<Checklist>)
    ensures Layers(s, PutAll([], s)) && Distinct(PutAll([], s))
    decreases |s|
  {
    FirstsAreDistinct(NamesOf(s));
    if s != [] {
      var n := |s| - 1;
      LayeringIsLastByFirst(s[..n]);
      LayerOneMore(s[..n], PutAll([], s[..n]), s[n]);
      PutAllAppend([], s[..n], s[n]);
      assert s[..n] + [s[n]] == s;
    }
  }

  lemma {:induction false} FirstsOfDistinct(names: seq<string>)
    requires NoRepeats(names)
    ensures FirstOf(names) == names
    decreases |names|
  {
    if names != [] {
      FirstsOfDistinct(names[..|names| - 1]);
    }
  }

  lemma {:induction false} LastOfDistinct(s: seq<Checklist>, i: nat)
    requires Distinct(s) && i < |s|
    ensures LastNamed(s, s[i].name) == Some(s[i])
    decreases |s|
  {
    var n := |s| - 1;
    assert NamesOf(s[..n]) == NamesOf(s)[..n];
    if i < n {
      assert NamesOf(s)[i] != NamesOf(s)[n];
      LastOfDistinct(s[..n], i);
    }
  }

  // Layering a list over nothing gives it back exactly when no name is in it twice.
  lemma LayeredOverNothingIsItself(s: seq<Checklist>)
    ensures PutAll([], s) == s <==> Distinct(s)
  {
    LayeringIsLastByFirst(s);
    if Distinct(s) {
      var t := PutAll([], s);
      FirstsOfDistinct(NamesOf(s));
      assert |t| == |NamesOf(t)| == |s|;
      forall i | 0 <= i < |s| ensures t[i] == s[i] {
        LastOfDistinct(s, i);
        assert NamesOf(t)[i] == NamesOf(s)[i];
      }
    }
  }

  /* ---- layering associates ---- */

  lemma {:induction false} PutTwice(s: seq<Checklist>, h: Checklist, c: Checklist)
    requires h.name == c.name
    ensures Put(Put(s, h), c) == Put(s, c)
  {
    if s != [] && s[0].name != c.name {
      PutTwice(s[1..], h, c);
    }
  }

  lemma {:induction false} PutsSwap(s: seq<Checklist>, r: Checklist, c: Checklist)
    requires c.name in NamesOf(s) && r.name != c.name
    ensures Put(Put(s, r), c) == Put(Put(s, c), r)
  {
    if s[0].name != c.name {
      assert NamesOf(s[1..]) == NamesOf(s)[1..];
      assert NamesOf(s) == [s[0].name] + NamesOf(s[1..]);
      if s[0].name != r.name {
        PutsSwap(s[1..], r, c);
      }
    }
  }

  lemma {:induction false} PutMovesPast(s: seq<Checklist>, rs: seq<Checklist>, c: Checklist)
    requires c.name in NamesOf(s) && c.name !in NamesOf(rs)
    ensures Put(PutAll(s, rs), c) == PutAll(Put(s, c), rs)
    decreases |rs|
  {
    if rs != [] {
      assert NamesOf(rs) == [rs[0].name] + NamesOf(rs[1..]);
      PutNames(s, rs[0]);
      PutMovesPast(Put(s, rs[0]), rs[1..], c);
      PutsSwap(s, rs[0], c);
    }
  }

  // Putting into a layer before layering it, or after.
  lemma {:induction false} PutBeforeOrAfter(a: seq<Checklist>, t: seq<Checklist>, c: Checklist)
    requires Distinct(t)
    ensures PutAll(a, Put(t, c)) == Put(PutAll(a, t), c)
    decreases |t|
  {
    if t == [] {
      assert [c][1..] == [];
    } else {
      assert NamesOf(t) == [t[0].name] + NamesOf(t[1..]);
      assert Distinct(t[1..]) by {
        assert NamesOf(t[1..]) == NamesOf(t)[1..];
      }
      if t[0].name == c.name {
        assert ([c] + t[1..])[1..] == t[1..];
        PutTwice(a, t[0], c);
        PutNames(a, t[0]);
        PutMovesPast(Put(a, t[0]), t[1..], c);
      } else {
        PutBeforeOrAfter(Put(a, t[0]), t[1..], c);
      }
    }
  }

  lemma {:induction false} DistinctLayerAssociates(a: seq<Checklist>, b: seq<Checklist>, c: seq<Checklist>)
    requires Distinct(b)
    ensures PutAll(a, PutAll(b, c)) == PutAll(PutAll(a, b), c)
    decreases |c|
  {
    if c != [] {
      PutNames(b, c[0]);
      DistinctLayerAssociates(a, Put(b, c[0]), c[1..]);
      PutBeforeOrAfter(a, b, c[0]);
    }
  }

  lemma {:induction false} LastOutlivesPut(s: seq<Checklist>, i: nat, j: nat, c: Checklist)
    requires i < j < |s| && s[i].name == s[j].name == c.name
    ensures LastNamed(Put(s, c), c.name) == LastNamed(s, c.name) && LastNamed(s, c.name).Some?
    decreases |s|
  {
    var k := FirstAt(s, c.name, i);
    PutAt(s, c, k);
    LastAbove(s, s[k := c], k, j, c.name);
  }

  lemma {:induction false} LastAbove(s: seq<Checklist>, t: seq<Checklist>, k: nat, j: nat, n: string)
    requires |s| == |t| && k < j < |s| && s[j].name == n && forall i | 0 <= i < |s| && i != k :: s[i] == t[i]
    ensures LastNamed(s, n) == LastNamed(t, n) && LastNamed(s, n).Some?
    decreases |s|
  {
    var m := |s| - 1;
    if s[m].name != n {
      LastAbove(s[..m], t[..m], k, j, n);
    }
  }

  lemma {:induction false} LastHasItsName(s: seq<Checklist>, n: string)
    requires LastNamed(s, n).Some?
    ensures LastNamed(s, n).value.name == n
    decreases |s|
  {
    if s[|s| - 1].name != n {
      LastHasItsName(s[..|s| - 1], n);
    }
  }

  lemma {:induction false} PutThere(s: seq<Checklist>, c: Checklist)
    ensures c in Put(s, c)
  {
    if s != [] && s[0].name != c.name {
      PutThere(s[1..], c);
    }
  }

  lemma LayeringHoldsOnlyTheLast(s: seq<Checklist>, c: Checklist)
    requires LastNamed(s, c.name) != Some(c)
    ensures c !in PutAll([], s)
  {
    LayeringIsLastByFirst(s);
    var t := PutAll([], s);
    forall k | 0 <= k < |t| ensures t[k] != c {
      assert LastNamed(s, t[k].name) == Some(t[k]);
    }
  }

  lemma PutAllOne(s: seq<Checklist>, c: Checklist)
    ensures PutAll(s, [c]) == Put(s, c)
  {
    assert [c][1..] == [];
  }

  function Another(c: Checklist): (r: Checklist)
    ensures r.name == c.name && r != c
  {
    assert |c.manifest + "+"| > |c.manifest|;
    Checklist(c.name, c.manifest + "+")
  }

  lemma RepeatedNameOutlives(b: seq<Checklist>, i: nat, j: nat, c: Checklist)
    requires i < j < |b| && b[i].name == b[j].name == c.name && LastNamed(b, c.name) != Some(c)
    ensures PutAll([], PutAll(b, [c])) != PutAll(PutAll([], b), [c])
  {
    LastOutlivesPut(b, i, j, c);
    LayeringHoldsOnlyTheLast(Put(b, c), c);
    PutAllOne(b, c);
    PutAllOne(PutAll([], b), c);
    PutThere(PutAll([], b), c);
  }

  // A name twice in the middle layer: what is layered over it replaces the first, and the second then wins.
  lemma RepeatedNameDoesNotAssociate(b: seq<Checklist>, i: nat, j: nat) returns (c: Checklist)
    requires i < j < |b| && b[i].name == b[j].name
    ensures PutAll([], PutAll(b, [c])) != PutAll(PutAll([], b), [c])
  {
    LastAbove(b, b, i, j, b[j].name);
    LastHasItsName(b, b[j].name);
    c := Another(LastNamed(b, b[j].name).value);
    RepeatedNameOutlives(b, i, j, c);
  }

  // Layering around a list is associative exactly when no name is in it twice.
  lemma AssociatesIffDistinct(b: seq<Checklist>)
    ensures Distinct(b) <==> forall a, c :: PutAll(a, PutAll(b, c)) == PutAll(PutAll(a, b), c)
  {
    if Distinct(b) {
      forall a, c ensures PutAll(a, PutAll(b, c)) == PutAll(PutAll(a, b), c) {
        DistinctLayerAssociates(a, b, c);
      }
    } else {
      var i, j :| 0 <= i < j < |b| && NamesOf(b)[i] == NamesOf(b)[j];
      var c := RepeatedNameDoesNotAssociate(b, i, j);
    }
  }

  /* ---- layering configs ---- */

  function Plus(a: Files, b: Files): Files {
    Files(a.profiles + b.profiles, a.params + b.params, a.symbolPaths + b.symbolPaths, a.libraries + b.libraries,
          a.querySets + b.querySets)
  }

  function Nearer<T>(further: Option<T>, nearer: Option<T>): Option<T> {
    if nearer.Some? then nearer else further
  }

  // b over a. What a config sends by value, and what it extends, is not carried over.
  function Merge(a: Config, b: Config): Config {
    Config(Nearer(a.conventions, b.conventions), Nearer(a.intent, b.intent), Plus(a.files, b.files),
           PutAll(a.checklists, b.checklists), "", [], map[])
  }

  method MergeConfig(a: Option<Config>, b: Option<Config>) returns (out: Config)
    ensures out == Merge(Get(a), Get(b))
  {
    var further, nearer := Get(a), Get(b);
    var checklists := MergeChecklists(further.checklists, nearer.checklists);
    out := EMPTY.(conventions := further.conventions, files := Plus(further.files, nearer.files),
                  checklists := checklists, intent := further.intent);
    if nearer.conventions != None {
      out := out.(conventions := nearer.conventions);
    }
    if nearer.intent != None {
      out := out.(intent := nearer.intent);
    }
  }

  // Merging configs is associative where the middle one declares no checklist name twice.
  lemma MergeAssociates(a: Config, b: Config, c: Config)
    requires Distinct(b.checklists)
    ensures Merge(a, Merge(b, c)) == Merge(Merge(a, b), c)
  {
    DistinctLayerAssociates(a.checklists, b.checklists, c.checklists);
    var left, right := Merge(a, Merge(b, c)).files, Merge(Merge(a, b), c).files;
    assert left.profiles == right.profiles && left.params == right.params && left.symbolPaths == right.symbolPaths;
    assert left.libraries == right.libraries && left.querySets == right.querySets;
  }

  function Conventions(c: Config): Option<string> { c.conventions }

  function Intent(c: Config): Option<string> { c.intent }

  function Profiles(c: Config): seq<string> { c.files.profiles }

  function Params(c: Config): seq<string> { c.files.params }

  function SymbolPaths(c: Config): seq<string> { c.files.symbolPaths }

  function Libraries(c: Config): seq<string> { c.files.libraries }

  function QuerySets(c: Config): seq<string> { c.files.querySets }

  function Checklists(c: Config): seq<Checklist> { c.checklists }

  // Configs layered root-first; the nearest is first in the list.
  function Layered(chain: seq<Config>): Config {
    if chain == [] then EMPTY else Merge(Layered(chain[1..]), chain[0])
  }

  function NearestOf(chain: seq<Config>, field: Config -> Option<string>): Option<string> {
    if chain == [] then None else if field(chain[0]).Some? then field(chain[0]) else NearestOf(chain[1..], field)
  }

  function RootFirst<T>(chain: seq<Config>, field: Config -> seq<T>): seq<T> {
    if chain == [] then [] else RootFirst(chain[1..], field) + field(chain[0])
  }

  lemma {:induction false} LayeredGathers<T>(chain: seq<Config>, field: Config -> seq<T>)
    requires field(EMPTY) == [] && forall a, b :: field(Merge(a, b)) == field(a) + field(b)
    ensures field(Layered(chain)) == RootFirst(chain, field)
  {
    if chain != [] {
      LayeredGathers(chain[1..], field);
    }
  }

  lemma {:induction false} LayeredTakesNearest(chain: seq<Config>, field: Config -> Option<string>)
    requires field(EMPTY) == None && forall a, b :: field(Merge(a, b)) == Nearer(field(a), field(b))
    ensures field(Layered(chain)) == NearestOf(chain, field)
  {
    if chain != [] {
      LayeredTakesNearest(chain[1..], field);
    }
  }

  lemma {:induction false} PutAllJoins(s: seq<Checklist>, a: seq<Checklist>, b: seq<Checklist>)
    ensures PutAll(s, a + b) == PutAll(PutAll(s, a), b)
    decreases |a|
  {
    if a == [] {
      assert a + b == b;
    } else {
      assert (a + b)[1..] == a[1..] + b;
      PutAllJoins(Put(s, a[0]), a[1..], b);
    }
  }

  lemma {:induction false} LayeredPutsAll(chain: seq<Config>)
    ensures Layered(chain).checklists == PutAll([], RootFirst(chain, Checklists))
  {
    if chain != [] {
      LayeredPutsAll(chain[1..]);
      PutAllJoins([], RootFirst(chain[1..], Checklists), chain[0].checklists);
    }
  }

  // Every field of a layered chain: the nearest convention and intent, every file root-first, each checklist name once
  // as it was last declared; and nothing of what the configs extend or send by value.
  lemma LayeredReads(chain: seq<Config>)
    ensures Layered(chain).conventions == NearestOf(chain, Conventions)
    ensures Layered(chain).intent == NearestOf(chain, Intent)
    ensures Layered(chain).files.profiles == RootFirst(chain, Profiles)
    ensures Layered(chain).files.params == RootFirst(chain, Params)
    ensures Layered(chain).files.symbolPaths == RootFirst(chain, SymbolPaths)
    ensures Layered(chain).files.libraries == RootFirst(chain, Libraries)
    ensures Layered(chain).files.querySets == RootFirst(chain, QuerySets)
    ensures Layers(RootFirst(chain, Checklists), Layered(chain).checklists)
    ensures Layered(chain).base == "" && Layered(chain).modules == [] && Layered(chain).docs == map[]
  {
    LayeredTakesNearest(chain, Conventions);
    LayeredTakesNearest(chain, Intent);
    LayeredGathers(chain, Profiles);
    LayeredGathers(chain, Params);
    LayeredGathers(chain, SymbolPaths);
    LayeredGathers(chain, Libraries);
    LayeredGathers(chain, QuerySets);
    LayeredPutsAll(chain);
    LayeringIsLastByFirst(RootFirst(chain, Checklists));
  }

  /* ---- the chain a project extends ---- */

  datatype Project = Project(name: string, config: Option<Config>)

  datatype Reply = Answer(project: Project) | Nothing | Fails(message: string)

  datatype Store = NotWired | Store(answer: string -> Reply)

  datatype Verdict = Resolved(config: Option<Config>) | TooDeep(trail: seq<string>) | Cycle(trail: seq<string>)
                   | Unwired(next: string) | Failed(next: string, message: string) | Missing(next: string)

  // How many parents a chain may have.
  const MAX_DEPTH: nat := 4

  function Base(p: Project): string {
    Get(p.config).base
  }

  // A project, what it extends, what that extends, and so on, as the store answers.
  ghost predicate Linked(store: Store, line: seq<Project>) {
    line != [] && forall i | 1 <= i < |line| :: Follows(store, line[i - 1], line[i])
  }

  ghost predicate Follows(store: Store, child: Project, parent: Project) {
    Base(child) != "" && store.Store? && store.answer(Base(child)) == Answer(parent)
  }

  // The names the chain was followed by.
  function Trail(line: seq<Project>): (r: seq<string>)
    requires line != []
    ensures |r| == |line| && r[0] == line[0].name
    ensures forall i | 1 <= i < |line| :: r[i] == Base(line[i - 1])
  {
    seq(|line|, i requires 0 <= i < |line| => if i == 0 then line[0].name else Base(line[i - 1]))
  }

  function Configs(line: seq<Project>): (r: seq<Config>)
    ensures |r| == |line| && forall i | 0 <= i < |r| :: r[i] == Get(line[i].config)
  {
    seq(|line|, i requires 0 <= i < |line| => Get(line[i].config))
  }

  // What is said of a chain followed without a name coming twice, if it goes no further.
  ghost predicate StopsAt(store: Store, line: seq<Project>, r: Verdict)
    requires line != []
  {
    var next := Base(line[|line| - 1]);
    if next == "" then r == Resolved(if |line| == 1 then line[0].config else Some(Layered(Configs(line))))
    else if |line| > MAX_DEPTH then r == TooDeep(Trail(line) + [next])
    else if next in Trail(line) then r == Cycle(Trail(line) + [next])
    else
      match store
      case NotWired => r == Unwired(next)
      case Store(answer) =>
        match answer(next)
        case Fails(message) => r == Failed(next, message)
        case Nothing => r == Missing(next)
        case Answer(_) => false
  }

  // The line was followed as far as it goes.
  ghost predicate Followed(store: Store, p: Project, line: seq<Project>) {
    Linked(store, line) && line[0] == p && |line| <= MAX_DEPTH + 1 && NoRepeats(Trail(line))
  }

  ghost predicate Resolves(store: Store, p: Project, r: Verdict) {
    exists line :: Followed(store, p, line) && StopsAt(store, line, r)
  }

  method ResolveExtends(store: Store, p: Project) returns (r: Verdict)
    ensures Resolves(store, p, r)
  {
    var cfg := Get(p.config);
    ghost var line := [p];
    assert Followed(store, p, line);
    if cfg.base == "" {
      assert StopsAt(store, line, Resolved(p.config));
      return Resolved(p.config);
    }
    var chain, seen, order, next, depth := [p.config], {p.name}, [p.name], cfg.base, 0;
    while next != ""
      invariant Followed(store, p, line) && depth == |line| - 1
      invariant next == Base(line[depth]) && order == Trail(line)
      invariant forall n :: n in seen <==> n in order
      invariant |chain| == |line| && forall i | 0 <= i < |line| :: chain[i] == line[i].config
      invariant depth == 0 ==> next != ""
      decreases MAX_DEPTH + 1 - depth
    {
      if depth >= MAX_DEPTH {
        assert StopsAt(store, line, TooDeep(order + [next]));
        return TooDeep(order + [next]);
      }
      if next in seen {
        assert StopsAt(store, line, Cycle(order + [next]));
        return Cycle(order + [next]);
      }
      if store.NotWired? {
        assert StopsAt(store, line, Unwired(next));
        return Unwired(next);
      }
      var reply := store.answer(next);
      match reply {
        case Fails(message) =>
          assert StopsAt(store, line, Failed(next, message));
          return Failed(next, message);
        case Nothing =>
          assert StopsAt(store, line, Missing(next));
          return Missing(next);
        case Answer(parent) =>
          OneMore(store, p, line, parent);
          seen, order, chain := seen + {next}, order + [next], chain + [parent.config];
          line := line + [parent];
          next := Base(parent);
      }
      depth := depth + 1;
    }
    var out := Compose(chain, Configs(line));
    assert StopsAt(store, line, Resolved(Some(out)));
    r := Resolved(Some(out));
  }

  lemma OneMore(store: Store, p: Project, line: seq<Project>, parent: Project)
    requires Followed(store, p, line) && |line| <= MAX_DEPTH
    requires Follows(store, line[|line| - 1], parent) && Base(line[|line| - 1]) !in Trail(line)
    ensures Followed(store, p, line + [parent])
    ensures Trail(line + [parent]) == Trail(line) + [Base(line[|line| - 1])]
  {
    var longer := line + [parent];
    assert Trail(longer) == Trail(line) + [Base(line[|line| - 1])];
    forall i | 1 <= i < |longer| ensures Follows(store, longer[i - 1], longer[i]) {
      if i < |line| {
        assert Follows(store, line[i - 1], line[i]);
      }
    }
  }

  // Layers the chain root-first; then passes over the conventions once more, the nearest last.
  method Compose(chain: seq<Option<Config>>, ghost configs: seq<Config>) returns (out: Config)
    requires |configs| == |chain| && forall i | 0 <= i < |chain| :: configs[i] == Get(chain[i])
    ensures out == Layered(configs)
  {
    out := EMPTY;
    var i := |chain|;
    while i > 0
      invariant 0 <= i <= |chain| && out == Layered(configs[i..])
    {
      i := i - 1;
      assert configs[i..][1..] == configs[i + 1..];
      out := MergeConfig(Some(out), chain[i]);
    }
    assert configs[0..] == configs;
    out := PassConventions(chain, configs, out);
    out := out.(base := "");
  }

  lemma LayeredConventions(chain: seq<Config>)
    ensures Layered(chain).conventions == NearestOf(chain, Conventions)
  {
    LayeredTakesNearest(chain, Conventions);
  }

  // The pass over the conventions leaves a layered config as it is.
  method PassConventions(chain: seq<Option<Config>>, ghost configs: seq<Config>, layered: Config) returns (out: Config)
    requires |configs| == |chain| && forall i | 0 <= i < |chain| :: configs[i] == Get(chain[i])
    requires layered == Layered(configs)
    ensures out == layered
  {
    LayeredConventions(configs);
    out := layered;
    var i := |chain|;
    ghost var said: Option<string> := None;
    while i > 0
      invariant 0 <= i <= |chain| && said == NearestOf(configs[i..], Conventions)
      invariant out == layered.(conventions := Nearer(layered.conventions, said))
    {
      i := i - 1;
      assert configs[i..][1..] == configs[i + 1..];
      if Get(chain[i]).conventions != None {
        out := out.(conventions := Get(chain[i]).conventions);
        said := Get(chain[i]).conventions;
      }
    }
    assert configs[0..] == configs;
  }

  /* ---- which chains resolve, and to what ---- */

  // Two chains from one project agree as far as both go.
  lemma {:induction false} ChainsAgree(store: Store, a: seq<Project>, b: seq<Project>, i: nat)
    requires Linked(store, a) && Linked(store, b) && a[0] == b[0] && i < |a| && i < |b|
    ensures a[i] == b[i]
  {
    if i > 0 {
      ChainsAgree(store, a, b, i - 1);
      assert Follows(store, a[i - 1], a[i]) && Follows(store, b[i - 1], b[i]);
    }
  }

  lemma ShorterIsPrefix(store: Store, a: seq<Project>, b: seq<Project>)
    requires Linked(store, a) && Linked(store, b) && a[0] == b[0] && |a| <= |b|
    ensures a == b[..|a|]
  {
    forall i | 0 <= i < |a| ensures a[i] == b[i] {
      ChainsAgree(store, a, b, i);
    }
  }

  lemma LinkGoesOn(store: Store, line: seq<Project>, i: nat)
    requires Linked(store, line) && i + 1 < |line|
    ensures Follows(store, line[i], line[i + 1])
  {
    assert Follows(store, line[i + 1 - 1], line[i + 1]);
  }

  lemma FollowedGoesOn(store: Store, p: Project, n: nat, line: seq<Project>)
    requires Followed(store, p, line) && 0 < n < |line|
    ensures Follows(store, line[n - 1], line[n]) && Base(line[n - 1]) !in Trail(line[..n])
  {
    LinkGoesOn(store, line, n - 1);
    assert Trail(line)[n] == Base(line[n - 1]);
    forall i | 0 <= i < n ensures Trail(line[..n])[i] != Base(line[n - 1]) {
      assert Trail(line)[i] == Trail(line[..n])[i];
    }
  }

  // A chain that stopped goes no further.
  lemma StoppedGoesNoFurther(store: Store, p: Project, a: seq<Project>, r: Verdict, b: seq<Project>)
    requires Followed(store, p, a) && StopsAt(store, a, r) && Followed(store, p, b)
    ensures |b| <= |a|
  {
    if |b| > |a| {
      ShorterIsPrefix(store, a, b);
      FollowedGoesOn(store, p, |a|, b);
    }
  }

  lemma StopsOneWay(store: Store, line: seq<Project>, r: Verdict, s: Verdict)
    requires line != [] && StopsAt(store, line, r) && StopsAt(store, line, s)
    ensures r == s
  {
  }

  // A project resolves in one way.
  lemma ResolutionIsUnique(store: Store, p: Project, r: Verdict, s: Verdict)
    requires Resolves(store, p, r) && Resolves(store, p, s)
    ensures r == s
  {
    var a :| Followed(store, p, a) && StopsAt(store, a, r);
    var b :| Followed(store, p, b) && StopsAt(store, b, s);
    StoppedGoesNoFurther(store, p, a, r, b);
    StoppedGoesNoFurther(store, p, b, s, a);
    ShorterIsPrefix(store, a, b);
    assert b[..|b|] == b;
    StopsOneWay(store, a, r, s);
  }

  // Once a chain comes to a project it was at before, it goes round.
  lemma {:induction false} GoesRound(store: Store, line: seq<Project>, i: nat, j: nat, k: nat)
    requires Linked(store, line) && i < j && j + k < |line| && line[i] == line[j]
    ensures line[i + k] == line[j + k]
  {
    if k > 0 {
      GoesRound(store, line, i, j, k - 1);
      assert Follows(store, line[i + k - 1], line[i + k]) && Follows(store, line[j + k - 1], line[j + k]);
    }
  }

  // A chain that comes to an end passes no project twice.
  lemma EndingPassesEachOnce(store: Store, line: seq<Project>, i: nat, j: nat)
    requires Linked(store, line) && Base(line[|line| - 1]) == "" && i < j < |line|
    ensures line[i] != line[j]
  {
    var k := |line| - 1 - j;
    LinkGoesOn(store, line, i + k);
    if line[i] == line[j] {
      GoesRound(store, line, i, j, k);
    }
  }

  lemma EndingTrailIsDistinct(store: Store, line: seq<Project>)
    requires Linked(store, line) && Base(line[|line| - 1]) == ""
    requires store.Store? ==> store.answer(line[0].name) == Answer(line[0])
    ensures NoRepeats(Trail(line))
  {
    forall i, j | 0 <= i < j < |line| ensures Trail(line)[i] != Trail(line)[j] {
      EndingPassesEachOnce(store, line, i, j);
      LinkGoesOn(store, line, j - 1);
      if i > 0 {
        LinkGoesOn(store, line, i - 1);
      }
    }
  }

  lemma EndedIsLongest(store: Store, ended: seq<Project>, line: seq<Project>)
    requires Linked(store, ended) && Linked(store, line) && ended[0] == line[0]
    requires Base(ended[|ended| - 1]) == ""
    ensures |line| <= |ended|
  {
    if |ended| < |line| {
      LinkGoesOn(store, line, |ended| - 1);
      ChainsAgree(store, ended, line, |ended| - 1);
    }
  }

  // What is refused as a cycle comes to no end.
  lemma CycleNeverEnds(store: Store, p: Project, a: seq<Project>, r: Verdict, line: seq<Project>)
    requires Followed(store, p, a) && StopsAt(store, a, r) && r.Cycle?
    requires store.Store? ==> store.answer(p.name) == Answer(p)
    requires Linked(store, line) && line[0] == p
    ensures Base(line[|line| - 1]) != ""
  {
    if Base(line[|line| - 1]) == "" {
      EndedIsLongest(store, line, a);
      ShorterIsPrefix(store, a, line);
      EndingTrailIsDistinct(store, line);
      var i :| 0 <= i < |a| && Trail(a)[i] == Base(a[|a| - 1]);
      CycleRepeats(a, line, i);
    }
  }

  lemma CycleRepeats(a: seq<Project>, line: seq<Project>, i: nat)
    requires i < |a| <= |line| && a == line[..|a|] && Trail(a)[i] == Base(a[|a| - 1])
    ensures |a| < |line| ==> !NoRepeats(Trail(line))
  {
    if |a| < |line| {
      assert Trail(line)[i] == Trail(a)[i] && Trail(line)[|a|] == Base(a[|a| - 1]);
    }
  }

  // A project the store answers by its name resolves exactly when what it extends comes to an end within four parents,
  // and is refused as a cycle only if it comes to no end at all.
  lemma ResolvesIffItEnds(store: Store, p: Project, r: Verdict)
    requires Resolves(store, p, r) && (store.Store? ==> store.answer(p.name) == Answer(p))
    ensures r.Resolved? <==> exists line :: Linked(store, line) && line[0] == p && |line| <= MAX_DEPTH + 1
                                            && Base(line[|line| - 1]) == ""
    ensures r.Cycle? ==> !exists line :: Linked(store, line) && line[0] == p && Base(line[|line| - 1]) == ""
  {
    var a :| Followed(store, p, a) && StopsAt(store, a, r);
    forall line | Linked(store, line) && line[0] == p && Base(line[|line| - 1]) == ""
      ensures !r.Cycle? && (|line| <= MAX_DEPTH + 1 ==> r.Resolved?)
    {
      if r.Cycle? {
        CycleNeverEnds(store, p, a, r, line);
      } else if |line| <= MAX_DEPTH + 1 {
        EndingTrailIsDistinct(store, line);
        StoppedGoesNoFurther(store, p, a, r, line);
        EndedIsLongest(store, line, a);
        ShorterIsPrefix(store, line, a);
      }
    }
  }

  lemma ParentFollowed(store: Store, q: Project, line: seq<Project>)
    requires Linked(store, line) && |line| > 1 && |line| <= MAX_DEPTH + 1 && NoRepeats(Trail(line))
    requires line[1] == q && q.name == Base(line[0])
    ensures Followed(store, q, line[1..]) && Configs(line)[1..] == Configs(line[1..])
  {
    var rest := line[1..];
    assert Trail(rest) == Trail(line)[1..];
    forall i | 1 <= i < |rest| ensures Follows(store, rest[i - 1], rest[i]) {
      assert Follows(store, line[i], line[i + 1]);
    }
  }

  lemma LinePartsAsParent(store: Store, line: seq<Project>, r: Verdict)
    requires |line| > 1 && StopsAt(store, line, r) && r.Resolved?
    requires Configs(line)[1..] == Configs(line[1..])
    ensures Base(line[|line| - 1]) == ""
    ensures r == Resolved(Some(Merge(Layered(Configs(line[1..])), Get(line[0].config))))
  {
  }

  lemma ParentStops(store: Store, q: Project, rest: seq<Project>)
    requires rest != [] && rest[0] == q && Linked(store, rest) && Base(rest[|rest| - 1]) == ""
    ensures StopsAt(store, rest, Resolved(if Base(q) == "" then q.config else Some(Layered(Configs(rest)))))
    ensures Base(q) == "" ==> Layered(Configs(rest)) == Merge(EMPTY, Get(q.config))
  {
    if |rest| > 1 {
      LinkGoesOn(store, rest, 0);
    } else {
      assert Configs(rest) == [Get(q.config)] && [Get(q.config)][1..] == [];
    }
  }

  // Resolving a project is layering it over what its parent resolves to, exactly when the parent itself inherits or
  // declares no checklist name twice.
  lemma InheritsWhatTheParentResolves(store: Store, p: Project, q: Project, r: Verdict, s: Verdict)
    requires Resolves(store, p, r) && r.Resolved? && Resolves(store, q, s)
    requires Follows(store, p, q) && q.name == Base(p)
    ensures s.Resolved?
    ensures r == Resolved(Some(Merge(Get(s.config), Get(p.config)))) <==>
            Base(q) != "" || Distinct(Get(q.config).checklists)
  {
    var line :| Followed(store, p, line) && StopsAt(store, line, r);
    assert |line| > 1;
    LinkGoesOn(store, line, 0);
    ParentFollowed(store, q, line);
    LinePartsAsParent(store, line, r);
    ParentStops(store, q, line[1..]);
    ResolutionIsUnique(store, q, s,
                       Resolved(if Base(q) == "" then q.config else Some(Layered(Configs(line[1..])))));
    MergesAsItsLayerIffDistinct(Get(q.config), Get(p.config));
  }

  lemma {:induction false} PutAllKeepsNames(s: seq<Checklist>, cs: seq<Checklist>)
    ensures NamesOf(s) <= NamesOf(PutAll(s, cs))
    decreases |cs|
  {
    if cs != [] {
      PutNames(s, cs[0]);
      PutAllKeepsNames(Put(s, cs[0]), cs[1..]);
    }
  }

  lemma MergesAsItsLayerIffDistinct(q: Config, c: Config)
    ensures Merge(Merge(EMPTY, q), c) == Merge(q, c) <==> Distinct(q.checklists)
  {
    assert Plus(EMPTY.files, q.files) == q.files by {
      assert [] + q.files.profiles == q.files.profiles && [] + q.files.params == q.files.params;
      assert [] + q.files.symbolPaths == q.files.symbolPaths && [] + q.files.libraries == q.files.libraries;
      assert [] + q.files.querySets == q.files.querySets;
    }
    LayeredOverNothingIsItself(q.checklists);
    if !Distinct(q.checklists) {
      var i, j :| 0 <= i < j < |q.checklists| && NamesOf(q.checklists)[i] == NamesOf(q.checklists)[j];
      PutAllKeepsNames(q.checklists, c.checklists);
      var raw, layered := PutAll(q.checklists, c.checklists), PutAll(PutAll([], q.checklists), c.checklists);
      assert NamesOf(raw)[i] == NamesOf(raw)[j];
      PutAllJoins([], q.checklists, c.checklists);
      LayeringIsLastByFirst(q.checklists + c.checklists);
    }
  }
}

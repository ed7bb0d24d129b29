// Read masks (service/designmask.go): field paths parsed into a tree, and a message pruned to what the tree keeps,
// against the plain reading that a leaf is kept when some path covers it.
module DesignMask {
  import opened Paths

  // A mask path, split at its dots.
  type FieldPath = seq<string>

  // A field mapped to an empty tree is kept whole, and one mapped to a larger tree only in part.
  datatype Tree = Tree(kids: map<string, Tree>)

  // What a field holds: a plain value, a message of some type, or a list or map of either.
  datatype FieldType = Scalar | Message(name: string) | ListOf(elem: Option<string>) | MapOf(value: Option<string>)

  // Each message type's fields.
  type Schema = map<string, map<string, FieldType>>

  datatype Value = Plain(data: string) | Msg(fields: map<string, Value>) | List(items: seq<Value>)
                 | Map(entries: map<string, Value>)

  /* ---- checking and parsing ---- */

  function Below(t: FieldType): Option<string> {
    match t
    case Scalar => None
    case Message(name) => Some(name)
    case ListOf(elem) => elem
    case MapOf(value) => value
  }

  // Whether a path names fields that exist, through messages, lists and maps; a star must end it.
  predicate CheckPath(schema: Schema, message: string, segs: FieldPath)
    decreases segs
  {
    if segs == [] || segs[0] == "*" then |segs| <= 1
    else
      && message in schema && segs[0] in schema[message]
      && (|segs| == 1
          || (Below(schema[message][segs[0]]).Some?
              && CheckPath(schema, Below(schema[message][segs[0]]).value, segs[1..])))
  }

  function Insert(tree: Tree, p: FieldPath): Tree
    decreases |p|
  {
    if p == [] then tree
    else
      var next := if p[0] in tree.kids then tree.kids[p[0]] else Tree(map[]);
      Tree(tree.kids[p[0] := Insert(next, p[1..])])
  }

  // A path split at its dots.
  function Segments(p: string): (r: FieldPath)
    ensures r != []
  {
    if p == "" then [""]
    else
      var rest := Segments(p[1..]);
      if p[0] == '.' then [""] + rest else [[p[0]] + rest[0]] + rest[1..]
  }

  // The segments of the paths that say something.
  function Given(paths: seq<string>): seq<FieldPath> {
    if paths == [] then []
    else
      var rest, p := Given(paths[..|paths| - 1]), paths[|paths| - 1];
      if p == "" then rest else rest + [Segments(p)]
  }

  /* ---- the tree of a list of paths ---- */

  function Heads(ps: seq<FieldPath>): set<string> {
    set p | p in ps && p != [] :: p[0]
  }

  // What is left of the paths that start with s.
  function Tails(ps: seq<FieldPath>, s: string): (r: seq<FieldPath>)
    ensures Total(r) <= Total(ps)
    ensures s in Heads(ps) ==> Total(r) < Total(ps)
    ensures forall q :: q in r <==> [s] + q in ps
  {
    if ps == [] then []
    else
      var rest := Tails(ps[1..], s);
      assert ps == [ps[0]] + ps[1..];
      if ps[0] != [] && ps[0][0] == s then
        assert ps[0] == [s] + ps[0][1..];
        [ps[0][1..]] + rest
      else rest
  }

  function Total(ps: seq<FieldPath>): nat {
    if ps == [] then 0 else |ps[0]| + Total(ps[1..])
  }

  function Build(ps: seq<FieldPath>): Tree
    decreases Total(ps)
  {
    Tree(map s | s in Heads(ps) :: Build(Tails(ps, s)))
  }

  lemma {:induction false} TailsAppend(ps: seq<FieldPath>, p: FieldPath, s: string)
    ensures Tails(ps + [p], s) == Tails(ps, s) + if p != [] && p[0] == s then [p[1..]] else []
  {
    if ps == [] {
      assert ps + [p] == [p] && [p][1..] == [];
    } else {
      assert (ps + [p])[1..] == ps[1..] + [p];
      TailsAppend(ps[1..], p, s);
    }
  }

  lemma NoPathsBuildNothing(ps: seq<FieldPath>)
    requires Heads(ps) == {}
    ensures Build(ps) == Tree(map[])
  {
  }

  lemma {:induction false} NoTails(ps: seq<FieldPath>, s: string)
    requires s !in Heads(ps)
    ensures Tails(ps, s) == []
  {
    if ps != [] {
      assert ps[0] in ps;
      assert s !in Heads(ps[1..]) by {
        assert forall p | p in ps[1..] :: p in ps;
      }
      NoTails(ps[1..], s);
    }
  }

  lemma HeadsAppend(ps: seq<FieldPath>, p: FieldPath)
    ensures Heads(ps + [p]) == if p == [] then Heads(ps) else Heads(ps) + {p[0]}
  {
    assert forall q :: q in ps + [p] <==> q in ps || q == p;
  }

  lemma EmptyPathAddsNothing(ps: seq<FieldPath>)
    ensures Build(ps + [[]]) == Build(ps)
  {
    HeadsAppend(ps, []);
    forall s | s in Heads(ps) ensures Build(Tails(ps + [[]], s)) == Build(Tails(ps, s)) {
      TailsAppend(ps, [], s);
      assert Tails(ps, s) + [] == Tails(ps, s);
    }
  }

  // The tree after a path: only what is under its first segment changes.
  lemma PathAddsUnderItsHead(ps: seq<FieldPath>, p: FieldPath)
    requires p != []
    ensures Build(ps + [p]) == Tree(Build(ps).kids[p[0] := Build(Tails(ps, p[0]) + [p[1..]])])
  {
    var now, built := Build(ps + [p]).kids, Build(ps).kids[p[0] := Build(Tails(ps, p[0]) + [p[1..]])];
    HeadsAppend(ps, p);
    assert now.Keys == built.Keys;
    forall s | s in now ensures now[s] == built[s] {
      TailsAppend(ps, p, s);
      assert Tails(ps, s) + [] == Tails(ps, s);
    }
  }

  // Adding paths one by one builds the tree of them all.
  lemma {:induction false} InsertBuilds(ps: seq<FieldPath>, p: FieldPath)
    ensures Insert(Build(ps), p) == Build(ps + [p])
    decreases |p|
  {
    if p == [] {
      EmptyPathAddsNothing(ps);
    } else {
      PathAddsUnderItsHead(ps, p);
      InsertBuilds(Tails(ps, p[0]), p[1..]);
      if p[0] !in Heads(ps) {
        NoTails(ps, p[0]);
        NoPathsBuildNothing([]);
      }
    }
  }

  // The paths are checked and added in turn; the first that does not check refuses the mask.
  method ParseMask(schema: Schema, message: string, paths: seq<string>) returns (r: Option<Tree>)
    ensures r == None <==> exists p :: p in paths && p != "" && !CheckPath(schema, message, Segments(p))
    ensures r.Some? ==> r.value == Build(Given(paths))
  {
    var tree := Tree(map[]);
    NoPathsBuildNothing([]);
    for i := 0 to |paths|
      invariant tree == Build(Given(paths[..i]))
      invariant forall p | p in paths[..i] :: p == "" || CheckPath(schema, message, Segments(p))
    {
      assert paths[..i + 1] == paths[..i] + [paths[i]] && paths[..i + 1][..i] == paths[..i];
      if paths[i] == "" {
        continue;
      }
      if !CheckPath(schema, message, Segments(paths[i])) {
        assert paths[i] in paths;
        return None;
      }
      InsertBuilds(Given(paths[..i]), Segments(paths[i]));
      tree := Insert(tree, Segments(paths[i]));
    }
    assert paths[..|paths|] == paths;
    r := Some(tree);
  }

  /* ---- what a mask covers ---- */

  // A path covers a field when it names the field or one above it, or ends in a star above it.
  predicate Covers(p: FieldPath, names: seq<string>) {
    p == [] || p[0] == "*" || (names != [] && p[0] == names[0] && Covers(p[1..], names[1..]))
  }

  // No path goes on from p.
  ghost predicate Deepest(ps: seq<FieldPath>, p: FieldPath) {
    p in ps && forall q | q in ps :: !(p < q)
  }

  // Some path covers the field that no other path goes on from: a path and one below it say only the one below.
  ghost predicate Covered(ps: seq<FieldPath>, names: seq<string>) {
    exists p :: Deepest(ps, p) && Covers(p, names)
  }

  // No path is a proper prefix of another.
  ghost predicate PrefixFree(ps: seq<FieldPath>) {
    forall p, q | p in ps && q in ps && p <= q :: p == q
  }

  // The field is not above what some path names.
  ghost predicate NotAbove(ps: seq<FieldPath>, names: seq<string>) {
    forall p | p in ps :: !(names < p)
  }

  predicate Keeps(tree: Tree, names: seq<string>) {
    tree.kids == map[] || "*" in tree.kids || names == []
    || (names[0] in tree.kids && Keeps(tree.kids[names[0]], names[1..]))
  }

  // Where no path is a prefix of another, being covered is being covered by any path.
  lemma PrefixFreeIsCoveredByAny(ps: seq<FieldPath>, names: seq<string>)
    requires PrefixFree(ps)
    ensures Covered(ps, names) <==> exists p :: p in ps && Covers(p, names)
  {
    if p :| p in ps && Covers(p, names) {
      assert Deepest(ps, p);
    }
  }

  function Longest(ps: seq<FieldPath>): nat {
    if ps == [] then 0 else if |ps[0]| > Longest(ps[1..]) then |ps[0]| else Longest(ps[1..])
  }

  lemma {:induction false} NoneIsLonger(ps: seq<FieldPath>, p: FieldPath)
    requires p in ps
    ensures |p| <= Longest(ps)
  {
    if p != ps[0] {
      assert p in ps[1..];
      NoneIsLonger(ps[1..], p);
    }
  }

  // Every path leads on to a deepest one.
  lemma {:induction false} GoesOnToDeepest(ps: seq<FieldPath>, p: FieldPath) returns (q: FieldPath)
    requires p in ps
    ensures Deepest(ps, q) && p <= q
    decreases Longest(ps) - |p|
  {
    if next :| next in ps && p < next {
      NoneIsLonger(ps, next);
      q := GoesOnToDeepest(ps, next);
    } else {
      q := p;
    }
  }

  lemma NotAboveTails(ps: seq<FieldPath>, names: seq<string>)
    requires NotAbove(ps, names) && names != []
    ensures NotAbove(Tails(ps, names[0]), names[1..])
  {
    forall p | p in Tails(ps, names[0]) ensures !(names[1..] < p) {
      assert [names[0]] + p in ps && names == [names[0]] + names[1..];
      assert names[1..] < p <==> names < [names[0]] + p;
    }
  }

  lemma DeepestTails(ps: seq<FieldPath>, s: string, t: FieldPath)
    ensures Deepest(ps, [s] + t) <==> Deepest(Tails(ps, s), t)
  {
    assert forall u :: u in Tails(ps, s) <==> [s] + u in ps;
    if Deepest(ps, [s] + t) {
      forall u | u in Tails(ps, s) ensures !(t < u) {
        assert t < u <==> [s] + t < [s] + u;
      }
    }
    if Deepest(Tails(ps, s), t) {
      forall q | q in ps ensures !([s] + t < q) {
        if q != [] && q[0] == s {
          assert q == [s] + q[1..] && q[1..] in Tails(ps, s);
          assert [s] + t < q <==> t < q[1..];
        }
      }
    }
  }

  lemma CoveredStep(ps: seq<FieldPath>, names: seq<string>)
    requires names != [] && Heads(ps) != {} && "*" !in Heads(ps)
    ensures Covered(ps, names) <==> Covered(Tails(ps, names[0]), names[1..])
  {
    if Covered(ps, names) {
      var p :| Deepest(ps, p) && Covers(p, names);
      var q :| q in ps && q != [] && q[0] in Heads(ps);
      assert p != [] by {
        assert [] < q;
      }
      assert p[0] in Heads(ps);
      assert p == [names[0]] + p[1..];
      DeepestTails(ps, names[0], p[1..]);
    }
    if Covered(Tails(ps, names[0]), names[1..]) {
      var t :| Deepest(Tails(ps, names[0]), t) && Covers(t, names[1..]);
      var p := [names[0]] + t;
      DeepestTails(ps, names[0], t);
      assert p[1..] == t && Covers(p, names);
    }
  }

  lemma KeepsStep(ps: seq<FieldPath>, names: seq<string>)
    requires names != [] && Heads(ps) != {} && "*" !in Heads(ps)
    ensures Keeps(Build(ps), names) <==>
              names[0] in Heads(ps) && Keeps(Build(Tails(ps, names[0])), names[1..])
  {
    var h :| h in Heads(ps);
    assert h in Build(ps).kids && "*" !in Build(ps).kids;
  }

  lemma StarKeepsAll(ps: seq<FieldPath>, names: seq<string>)
    requires "*" in Heads(ps)
    ensures Keeps(Build(ps), names) && Covered(ps, names)
  {
    assert "*" in Build(ps).kids;
    var p :| p in ps && p != [] && p[0] == "*";
    var q := GoesOnToDeepest(ps, p);
    assert q[0] == p[0] && Covers(q, names);
  }

  lemma HasHead(ps: seq<FieldPath>, p: FieldPath)
    requires p in ps
    ensures p == [] || p[0] in Heads(ps)
  {
  }

  lemma EmptyPathsKeepAll(ps: seq<FieldPath>, names: seq<string>)
    requires ps != [] && Heads(ps) == {}
    ensures Keeps(Build(ps), names) && Covered(ps, names)
  {
    NoPathsBuildNothing(ps);
    forall p | p in ps ensures p == [] {
      HasHead(ps, p);
    }
    assert ps[0] in ps && Deepest(ps, []) && Covers([], names);
  }

  lemma HeadIsNamed(ps: seq<FieldPath>, s: string)
    requires s in Heads(ps)
    ensures Tails(ps, s) != []
  {
    var p :| p in ps && p != [] && p[0] == s;
    assert p == [s] + p[1..];
    assert p[1..] in Tails(ps, s);
  }

  // The tree keeps a field exactly when some path covers it that no other path goes on from.
  lemma {:induction false} TreeKeepsTheCovered(ps: seq<FieldPath>, names: seq<string>)
    requires ps != [] && NotAbove(ps, names)
    ensures Keeps(Build(ps), names) <==> Covered(ps, names)
    decreases |names|
  {
    if Heads(ps) == {} {
      EmptyPathsKeepAll(ps, names);
    } else if "*" in Heads(ps) {
      StarKeepsAll(ps, names);
    } else {
      var p :| p in ps && p != [] && p[0] in Heads(ps);
      assert !(names < p) && [] < p;
      KeepsStep(ps, names);
      CoveredStep(ps, names);
      if names[0] in Heads(ps) {
        HeadIsNamed(ps, names[0]);
        NotAboveTails(ps, names);
        TreeKeepsTheCovered(Tails(ps, names[0]), names[1..]);
      } else {
        NoTails(ps, names[0]);
        assert !Covered([], names[1..]);
      }
    }
  }

  // A path that another one goes on from adds nothing: it says only what the longer one says.
  lemma {:induction false} LongerPathNarrows(ps: seq<FieldPath>, p: FieldPath, q: FieldPath)
    requires q in ps && p < q
    ensures Build(ps + [p]) == Build(ps)
    decreases |p|
  {
    if p == [] {
      EmptyPathAddsNothing(ps);
    } else {
      assert q == [p[0]] + q[1..] && q[0] in Heads(ps);
      assert q[1..] in Tails(ps, p[0]) && p[1..] < q[1..];
      PathAddsUnderItsHead(ps, p);
      LongerPathNarrows(Tails(ps, p[0]), p[1..], q[1..]);
      assert Build(ps).kids[p[0] := Build(Tails(ps, p[0]))] == Build(ps).kids;
    }
  }

  // The order of the paths, and how often each is given, do not matter.
  lemma {:induction false} OrderDoesNotMatter(ps: seq<FieldPath>, qs: seq<FieldPath>)
    requires forall p :: p in ps <==> p in qs
    ensures Build(ps) == Build(qs)
    decreases Total(ps)
  {
    assert Heads(ps) == Heads(qs);
    forall s | s in Heads(ps) ensures Build(Tails(ps, s)) == Build(Tails(qs, s)) {
      forall p ensures p in Tails(ps, s) <==> p in Tails(qs, s) {
        assert p in Tails(ps, s) <==> [s] + p in ps;
        assert p in Tails(qs, s) <==> [s] + p in qs;
      }
      OrderDoesNotMatter(Tails(ps, s), Tails(qs, s));
    }
  }

  /* ---- pruning ---- */

  // Clears each field the tree does not keep; elements of a list or map are pruned one by one.
  function Prune(m: map<string, Value>, tree: Tree): map<string, Value>
    decreases Msg(m), 1
  {
    if tree.kids == map[] || "*" in tree.kids then m
    else map k | k in m && k in tree.kids :: if tree.kids[k].kids == map[] then m[k] else PruneField(m[k], tree.kids[k])
  }

  function PruneField(v: Value, tree: Tree): Value
    decreases v, 3
  {
    match v
    case Plain(_) => v
    case Msg(fields) => Msg(Prune(fields, tree))
    case List(items) => List(seq(|items|, i requires 0 <= i < |items| => PruneElem(items[i], tree)))
    case Map(entries) => Map(map k | k in entries :: PruneElem(entries[k], tree))
  }

  // Only messages are pruned inside a list or map.
  function PruneElem(v: Value, tree: Tree): Value
    decreases v, 2
  {
    match v
    case Msg(fields) => Msg(Prune(fields, tree))
    case _ => v
  }

  // One step into a value.
  datatype Step = Field(name: string) | Index(i: nat) | Key(key: string)

  function Lookup(v: Value, addr: seq<Step>): Option<Value>
    decreases |addr|
  {
    if addr == [] then Some(v)
    else
      match (addr[0], v)
      case (Field(n), Msg(fields)) => if n in fields then Lookup(fields[n], addr[1..]) else None
      case (Index(i), List(items)) => if i < |items| then Lookup(items[i], addr[1..]) else None
      case (Key(k), Map(entries)) => if k in entries then Lookup(entries[k], addr[1..]) else None
      case _ => None
  }

  // The fields passed through, as a mask path would name them.
  function Names(addr: seq<Step>): seq<string> {
    if addr == [] then []
    else if addr[0].Field? then [addr[0].name] + Names(addr[1..])
    else Names(addr[1..])
  }

  // Lists and maps hold plain values and messages, as Protocol Buffers have it.
  predicate Flat(v: Value) {
    match v
    case Plain(_) => true
    case Msg(fields) => forall k | k in fields :: Flat(fields[k])
    case List(items) => forall i | 0 <= i < |items| :: (items[i].Plain? || items[i].Msg?) && Flat(items[i])
    case Map(entries) => forall k | k in entries :: (entries[k].Plain? || entries[k].Msg?) && Flat(entries[k])
  }

  // What a place of a value shows after pruning: what it did, if the tree keeps the fields passed through, and nothing
  // otherwise.
  ghost predicate Shows(v: Value, pruned: Value, tree: Tree, addr: seq<Step>) {
    match Lookup(v, addr)
    case Some(Plain(d)) => Lookup(pruned, addr) == if Keeps(tree, Names(addr)) then Some(Plain(d)) else None
    case _ => true
  }

  lemma {:induction false} PruneShows(m: map<string, Value>, tree: Tree, addr: seq<Step>)
    requires Flat(Msg(m))
    ensures Shows(Msg(m), Msg(Prune(m, tree)), tree, addr)
    decreases |addr|, 1
  {
    if addr != [] && addr[0].Field? && addr[0].name in m {
      var k := addr[0].name;
      var names := Names(addr);
      assert names[0] == k && names[1..] == Names(addr[1..]);
      if !(tree.kids == map[] || "*" in tree.kids) && k in tree.kids && tree.kids[k].kids != map[] {
        FieldShows(m[k], tree.kids[k], addr[1..]);
      }
    }
  }

  lemma {:induction false} FieldShows(v: Value, tree: Tree, addr: seq<Step>)
    requires Flat(v)
    ensures Shows(v, PruneField(v, tree), tree, addr)
    decreases |addr|, 2
  {
    match v
    case Plain(_) =>
    case Msg(fields) => PruneShows(fields, tree, addr);
    case List(items) =>
      if addr != [] && addr[0].Index? && addr[0].i < |items| {
        ElemShows(items[addr[0].i], tree, addr[1..]);
      }
    case Map(entries) =>
      if addr != [] && addr[0].Key? && addr[0].key in entries {
        ElemShows(entries[addr[0].key], tree, addr[1..]);
      }
  }

  lemma {:induction false} ElemShows(v: Value, tree: Tree, addr: seq<Step>)
    requires Flat(v) && (v.Plain? || v.Msg?)
    ensures Shows(v, PruneElem(v, tree), tree, addr)
    decreases |addr|, 2
  {
    if v.Msg? {
      PruneShows(v.fields, tree, addr);
    }
  }

  /* ---- a checked mask on a message of its type ---- */

  predicate Conforms(schema: Schema, message: string, v: Value)
    decreases v, 0
  {
    && v.Msg? && message in schema
    && forall k | k in v.fields :: k in schema[message] && FieldConforms(schema, schema[message][k], v.fields[k])
  }

  predicate FieldConforms(schema: Schema, t: FieldType, v: Value)
    decreases v, 1
  {
    match t
    case Scalar => v.Plain?
    case Message(n) => Conforms(schema, n, v)
    case ListOf(None) => v.List? && forall i | 0 <= i < |v.items| :: v.items[i].Plain?
    case ListOf(Some(n)) => v.List? && forall i | 0 <= i < |v.items| :: Conforms(schema, n, v.items[i])
    case MapOf(None) => v.Map? && forall k | k in v.entries :: v.entries[k].Plain?
    case MapOf(Some(n)) => v.Map? && forall k | k in v.entries :: Conforms(schema, n, v.entries[k])
  }

  lemma {:induction false} ConformingIsFlat(schema: Schema, message: string, v: Value)
    requires Conforms(schema, message, v)
    ensures Flat(v)
    decreases v, 0
  {
    forall k | k in v.fields ensures Flat(v.fields[k]) {
      FieldIsFlat(schema, schema[message][k], v.fields[k]);
    }
  }

  lemma {:induction false} FieldIsFlat(schema: Schema, t: FieldType, v: Value)
    requires FieldConforms(schema, t, v)
    ensures Flat(v)
    decreases v, 1
  {
    match t
    case Scalar =>
    case Message(n) => ConformingIsFlat(schema, n, v);
    case ListOf(None) =>
    case ListOf(Some(n)) =>
      forall i | 0 <= i < |v.items| ensures (v.items[i].Plain? || v.items[i].Msg?) && Flat(v.items[i]) {
        ConformingIsFlat(schema, n, v.items[i]);
      }
    case MapOf(None) =>
    case MapOf(Some(n)) =>
      forall k | k in v.entries ensures (v.entries[k].Plain? || v.entries[k].Msg?) && Flat(v.entries[k]) {
        ConformingIsFlat(schema, n, v.entries[k]);
      }
  }

  ghost predicate IsLeaf(v: Value, addr: seq<Step>) {
    Lookup(v, addr).Some? && Lookup(v, addr).value.Plain?
  }

  // A path that checks never goes on below a plain value.
  lemma {:induction false} LeafIsNotAbove(schema: Schema, message: string, v: Value, addr: seq<Step>, p: FieldPath)
    requires Conforms(schema, message, v) && IsLeaf(v, addr) && CheckPath(schema, message, p)
    ensures !(Names(addr) < p)
    decreases |addr|, 0
  {
    var k := addr[0].name;
    var names := Names(addr);
    assert names[0] == k && names[1..] == Names(addr[1..]);
    if names < p {
      assert p[0] == k && names[1..] < p[1..];
      BelowFieldIsNotAbove(schema, schema[message][k], v.fields[k], addr[1..], p[1..]);
    }
  }

  lemma {:induction false} BelowFieldIsNotAbove(schema: Schema, t: FieldType, v: Value, addr: seq<Step>, p: FieldPath)
    requires FieldConforms(schema, t, v) && IsLeaf(v, addr)
    requires p == [] || (Below(t).Some? && CheckPath(schema, Below(t).value, p))
    ensures !(Names(addr) < p)
    decreases |addr|, 1
  {
    match t
    case Scalar =>
    case Message(n) => if p != [] && addr != [] { LeafIsNotAbove(schema, n, v, addr, p); }
    case ListOf(None) =>
    case ListOf(Some(n)) => if p != [] { LeafIsNotAbove(schema, n, v.items[addr[0].i], addr[1..], p); }
    case MapOf(None) =>
    case MapOf(Some(n)) => if p != [] { LeafIsNotAbove(schema, n, v.entries[addr[0].key], addr[1..], p); }
  }

  ghost predicate Checked(schema: Schema, message: string, ps: seq<FieldPath>) {
    forall p | p in ps :: CheckPath(schema, message, p)
  }

  // A checked mask shows a leaf, unaltered, exactly when some path covers it that no other path goes on from. A mask of no
  // paths shows everything.
  lemma MaskKeepsExactly(schema: Schema, message: string, ps: seq<FieldPath>, v: Value, addr: seq<Step>)
    requires Conforms(schema, message, v) && IsLeaf(v, addr)
    requires Checked(schema, message, ps)
    ensures Lookup(Msg(Prune(v.fields, Build(ps))), addr) ==
            if ps == [] || Covered(ps, Names(addr)) then Lookup(v, addr) else None
  {
    ConformingIsFlat(schema, message, v);
    PruneShows(v.fields, Build(ps), addr);
    forall p | p in ps ensures !(Names(addr) < p) {
      LeafIsNotAbove(schema, message, v, addr, p);
    }
    if ps == [] {
      NoPathsBuildNothing(ps);
    } else {
      TreeKeepsTheCovered(ps, Names(addr));
    }
  }

  /* ---- what pruning never does ---- */

  // A leaf a pruned value shows was there before.
  lemma {:induction false} PruneAddsNothing(m: map<string, Value>, tree: Tree, addr: seq<Step>)
    requires IsLeaf(Msg(Prune(m, tree)), addr)
    ensures Lookup(Msg(m), addr) == Lookup(Msg(Prune(m, tree)), addr)
    decreases |addr|, 1
  {
    var k := addr[0].name;
    if !(tree.kids == map[] || "*" in tree.kids) && tree.kids[k].kids != map[] {
      FieldAddsNothing(m[k], tree.kids[k], addr[1..]);
    }
  }

  lemma {:induction false} FieldAddsNothing(v: Value, tree: Tree, addr: seq<Step>)
    requires IsLeaf(PruneField(v, tree), addr)
    ensures Lookup(v, addr) == Lookup(PruneField(v, tree), addr)
    decreases |addr|, 2
  {
    match v
    case Plain(_) =>
    case Msg(fields) => PruneAddsNothing(fields, tree, addr);
    case List(items) => ElemAddsNothing(items[addr[0].i], tree, addr[1..]);
    case Map(entries) => ElemAddsNothing(entries[addr[0].key], tree, addr[1..]);
  }

  lemma {:induction false} ElemAddsNothing(v: Value, tree: Tree, addr: seq<Step>)
    requires IsLeaf(PruneElem(v, tree), addr)
    ensures Lookup(v, addr) == Lookup(PruneElem(v, tree), addr)
    decreases |addr|, 2
  {
    if v.Msg? {
      PruneAddsNothing(v.fields, tree, addr);
    }
  }

  // Pruning by the same mask again changes nothing.
  lemma {:induction false} PruneTwiceIsOnce(m: map<string, Value>, tree: Tree)
    ensures Prune(Prune(m, tree), tree) == Prune(m, tree)
    decreases Msg(m), 1
  {
    if !(tree.kids == map[] || "*" in tree.kids) {
      var once := Prune(m, tree);
      var twice := Prune(once, tree);
      assert twice.Keys == once.Keys;
      forall k | k in once ensures twice[k] == once[k] {
        if tree.kids[k].kids != map[] {
          FieldTwiceIsOnce(m[k], tree.kids[k]);
        }
      }
    }
  }

  lemma {:induction false} FieldTwiceIsOnce(v: Value, tree: Tree)
    ensures PruneField(PruneField(v, tree), tree) == PruneField(v, tree)
    decreases v, 3
  {
    match v
    case Plain(_) =>
    case Msg(fields) => PruneTwiceIsOnce(fields, tree);
    case List(items) =>
      forall i | 0 <= i < |items| ensures PruneElem(PruneElem(items[i], tree), tree) == PruneElem(items[i], tree) {
        ElemTwiceIsOnce(items[i], tree);
      }
      assert PruneField(PruneField(v, tree), tree).items == PruneField(v, tree).items;
    case Map(entries) =>
      forall k | k in entries
        ensures PruneElem(PruneElem(entries[k], tree), tree) == PruneElem(entries[k], tree)
      {
        ElemTwiceIsOnce(entries[k], tree);
      }
      assert PruneField(PruneField(v, tree), tree).entries == PruneField(v, tree).entries;
  }

  lemma {:induction false} ElemTwiceIsOnce(v: Value, tree: Tree)
    ensures PruneElem(PruneElem(v, tree), tree) == PruneElem(v, tree)
    decreases v, 2
  {
    if v.Msg? {
      PruneTwiceIsOnce(v.fields, tree);
    }
  }
}

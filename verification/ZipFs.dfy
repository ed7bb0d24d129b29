// Archives read as the folders they were made from (fshost/zipfs.go): descending into archives on the way down a path,
// with each archive read once, against a lookup in the tree expanded beforehand.
module ZipFs {
  import opened Paths

  type Data = string

  type Entries = map<string, Node>

  datatype Node = File(data: Data) | Dir(entries: map<string, Node>)

  // The base file system, and what parsing a file's bytes as a zip gives: its tree, or nothing when they are not one.
  datatype World = World(base: map<string, Node>, unzip: Data -> Option<map<string, Node>>)

  // A path from a root, one element after another.
  datatype Path = Root | Under(dir: Path, el: string)

  function Depth(p: Path): nat {
    match p
    case Root => 0
    case Under(dir, _) => Depth(dir) + 1
  }

  function Append(a: Path, b: Path): Path {
    match b
    case Root => a
    case Under(dir, el) => Under(Append(a, dir), el)
  }

  function PathOf(elems: seq<string>): Path {
    if elems == [] then Root else Under(PathOf(elems[..|elems| - 1]), elems[|elems| - 1])
  }

  // An extension that is ".zip" but for case.
  predicate ZipName(name: string) {
    var e := Ext(name);
    |e| == 4 && e[0] == '.' && e[1] in {'z', 'Z'} && e[2] in {'i', 'I'} && e[3] in {'p', 'P'}
  }

  /* ---- the tree, and the tree expanded ---- */

  // The child of a node, if it is a folder with one of that name.
  function Child(n: Option<Node>, el: string): Option<Node> {
    match n
    case Some(Dir(entries)) => if el in entries then Some(entries[el]) else None
    case _ => None
  }

  function Find(n: Node, path: Path): Option<Node> {
    match path
    case Root => Some(n)
    case Under(dir, el) => Child(Find(n, dir), el)
  }

  // Whether a file of this name and content reads as a folder.
  predicate Opens(w: World, name: string, n: Node) {
    ZipName(name) && n.File? && w.unzip(n.data).Some?
  }

  // The node with every archive in it, down to depth archives inside one another, already a folder. An archive may hold
  // itself, so expansion needs a depth; a path enters no more archives than it has elements.
  function Expanded(w: World, name: string, n: Node, depth: nat): Node
    decreases depth, n, 1
  {
    match n
    case File(data) => if depth > 0 && Opens(w, name, n) then Dir(AllExpanded(w, w.unzip(data).value, depth - 1)) else n
    case Dir(entries) => Dir(AllExpanded(w, entries, depth))
  }

  function AllExpanded(w: World, entries: Entries, depth: nat): Entries
    decreases depth, Dir(entries), 0
  {
    map k | k in entries :: Expanded(w, k, entries[k], depth)
  }

  /* ---- the walk ---- */

  // Where a walk stands: the tree it is in, and the path inside that.
  datatype Spot = Spot(cur: Node, inner: Path)

  function Read(w: World, cur: Node, path: Path): Option<Entries> {
    match Find(cur, path)
    case Some(File(data)) => w.unzip(data)
    case _ => None
  }

  function Descend(w: World, at: Spot, el: string): Spot {
    var next := Under(at.inner, el);
    if ZipName(el) && Read(w, at.cur, next).Some? then Spot(Dir(Read(w, at.cur, next).value), Root)
    else Spot(at.cur, next)
  }

  // The walk without a cache, reading each archive on the way.
  function Locate(w: World, path: Path): Spot {
    match path
    case Root => Spot(Dir(w.base), Root)
    case Under(dir, el) => Descend(w, Locate(w, dir), el)
  }

  // How many archives the walk enters.
  function Entered(w: World, path: Path): (n: nat)
    ensures n <= Depth(path)
  {
    match path
    case Root => 0
    case Under(dir, _) => Entered(w, dir) + if Locate(w, path).inner == Root then 1 else 0
  }

  function Last(path: Path): string {
    match path
    case Root => ""
    case Under(_, el) => el
  }

  // A spot rests outside when it is not at an archive it could enter.
  predicate Outside(w: World, at: Spot) {
    && at.cur.Dir?
    && (at.inner != Root && Find(at.cur, at.inner).Some? ==> !Opens(w, Last(at.inner), Find(at.cur, at.inner).value))
  }

  lemma WalkRestsOutside(w: World, path: Path)
    ensures Outside(w, Locate(w, path))
  {
  }

  // What a spot names, as the expanded tree shows it.
  function Shown(w: World, at: Spot, depth: nat): Option<Node> {
    match Find(at.cur, at.inner)
    case None => None
    case Some(n) => Some(Expanded(w, Last(at.inner), n, depth))
  }

  // A child that is there is entered if it opens, and rested on if not, and shows as it is expanded.
  lemma ChildIsShown(w: World, at: Spot, el: string, n: Node, depth: nat)
    requires depth > 0 && Find(at.cur, Under(at.inner, el)) == Some(n)
    ensures var now := Descend(w, at, el);
            Shown(w, now, if now.inner == Root then depth - 1 else depth) == Some(Expanded(w, el, n, depth))
  {
    if Opens(w, el, n) {
      var entries := w.unzip(n.data).value;
      assert Descend(w, at, el) == Spot(Dir(entries), Root);
      assert Expanded(w, el, n, depth) == Dir(AllExpanded(w, entries, depth - 1));
      assert Expanded(w, "", Dir(entries), depth - 1) == Dir(AllExpanded(w, entries, depth - 1));
    }
  }

  lemma DescendIsShown(w: World, at: Spot, el: string, depth: nat)
    requires Outside(w, at) && depth > 0
    ensures var now := Descend(w, at, el);
            Shown(w, now, if now.inner == Root then depth - 1 else depth) == Child(Shown(w, at, depth), el)
  {
    match Find(at.cur, at.inner) {
      case Some(Dir(entries)) =>
        var shown := AllExpanded(w, entries, depth);
        assert Shown(w, at, depth) == Some(Dir(shown));
        if el in entries {
          assert shown[el] == Expanded(w, el, entries[el], depth);
          ChildIsShown(w, at, el, entries[el], depth);
        }
      case _ =>
    }
  }

  lemma WalkOneMore(w: World, tree: Node, dir: Path, el: string, left: nat)
    requires left > 0 && Shown(w, Locate(w, dir), left) == Find(tree, dir)
    ensures var now := Locate(w, Under(dir, el));
            Shown(w, now, if now.inner == Root then left - 1 else left) == Find(tree, Under(dir, el))
  {
    WalkRestsOutside(w, dir);
    DescendIsShown(w, Locate(w, dir), el, left);
  }

  lemma {:induction false} WalkIsLookup(w: World, tree: Node, path: Path, depth: nat)
    requires depth >= Depth(path) && Shown(w, Locate(w, Root), depth) == Some(tree)
    ensures Shown(w, Locate(w, path), depth - Entered(w, path)) == Find(tree, path)
  {
    match path {
      case Root =>
      case Under(dir, el) =>
        WalkIsLookup(w, tree, dir, depth);
        WalkOneMore(w, tree, dir, el, depth - Entered(w, dir));
    }
  }

  // Walking down a path, entering archives as they come, ends at what a plain lookup finds in the tree expanded
  // beforehand, at any depth of archives inside archives.
  lemma WalkIsExpandedLookup(w: World, path: Path, depth: nat)
    requires depth >= Depth(path)
    ensures Shown(w, Locate(w, path), depth - Entered(w, path)) == Find(Expanded(w, "", Dir(w.base), depth), path)
  {
    WalkIsLookup(w, Expanded(w, "", Dir(w.base), depth), path, depth);
  }

  lemma ShownKind(w: World, at: Spot, depth: nat)
    requires Outside(w, at)
    ensures Shown(w, at, depth).Some? <==> Find(at.cur, at.inner).Some?
    ensures Shown(w, at, depth).Some? ==> (Shown(w, at, depth).value.Dir? <==> Find(at.cur, at.inner).value.Dir?)
  {
  }

  datatype DirEntry = DirEntry(name: string, dir: bool)

  // An entry of a listing, with an archive that can be entered made a directory.
  function AsDir(w: World, dir: Path, de: DirEntry): DirEntry {
    DirEntry(de.name, de.dir || (ZipName(de.name) && Locate(w, Under(dir, de.name)).inner == Root))
  }

  lemma WalkKind(w: World, tree: Node, path: Path, depth: nat)
    requires depth >= Depth(path) && Shown(w, Locate(w, Root), depth) == Some(tree)
    ensures var at := Locate(w, path);
            && (Find(tree, path).Some? <==> Find(at.cur, at.inner).Some?)
            && (Find(tree, path).Some? ==> (Find(tree, path).value.Dir? <==> Find(at.cur, at.inner).value.Dir?))
  {
    WalkIsLookup(w, tree, path, depth);
    WalkRestsOutside(w, path);
    ShownKind(w, Locate(w, path), depth - Entered(w, path));
  }

  lemma ListedAsShown(w: World, tree: Node, dir: Path, de: DirEntry, depth: nat)
    requires depth > Depth(dir) && Shown(w, Locate(w, Root), depth) == Some(tree)
    requires var at := Locate(w, dir);
             var n := Find(at.cur, Under(at.inner, de.name));
             n.Some? && de.dir == n.value.Dir?
    ensures var shown := Find(tree, Under(dir, de.name));
            shown.Some? && shown.value.Dir? == AsDir(w, dir, de).dir
  {
    WalkKind(w, tree, Under(dir, de.name), depth);
  }

  // A listing of a directory reports as directories exactly those entries that are directories in the tree expanded
  // beforehand.
  lemma ListedAsExpanded(w: World, dir: Path, de: DirEntry, depth: nat)
    requires depth > Depth(dir)
    requires var at := Locate(w, dir);
             var n := Find(at.cur, Under(at.inner, de.name));
             n.Some? && de.dir == n.value.Dir?
    ensures var shown := Find(Expanded(w, "", Dir(w.base), depth), Under(dir, de.name));
            shown.Some? && shown.value.Dir? == AsDir(w, dir, de).dir
  {
    ListedAsShown(w, Expanded(w, "", Dir(w.base), depth), dir, de, depth);
  }

  /* ---- the file system, with its cache ---- */

  // What reading the archive at this full path again would give.
  function ReadAgain(w: World, path: Path): Option<Entries> {
    match path
    case Root => None
    case Under(dir, el) =>
      var at := Locate(w, dir);
      Read(w, at.cur, Under(at.inner, el))
  }

  // A path that Go's fs.ValidPath accepts.
  predicate ValidPath(name: string) {
    name == "." || AllPlain(Split(name))
  }

  function Named(name: string): Path {
    if name == "." then Root else PathOf(Split(name))
  }

  function InDir(dir: string, name: string): string {
    if dir == "." then name else dir + "/" + name
  }

  lemma InDirIsUnder(dir: string, name: string)
    requires ValidPath(dir) && Plain(name)
    ensures ValidPath(InDir(dir, name)) && Named(InDir(dir, name)) == Under(Named(dir), name)
  {
    SplitWhole(name);
    if dir == "." {
      assert PathOf([name]) == Under(PathOf([name][..0]), name);
    } else {
      SplitAppends(dir, name);
      SplitWhole(".");
      var elems := Split(dir) + [name];
      assert elems[..|elems| - 1] == Split(dir);
      assert Split(InDir(dir, name)) == elems != Split(".");
    }
  }

  class ZipFS {
    const w: World
    var open: map<Path, Entries>

    // Whatever is cached is what reading the archive again would give.
    ghost predicate Valid()
      reads this
    {
      forall key | key in open :: ReadAgain(w, key) == Some(open[key])
    }

    constructor (w: World)
      ensures Valid() && this.w == w && open == map[]
    {
      this.w := w;
      open := map[];
    }

    // The archive at path in cur, read once and kept under its full path.
    method Archive(cur: Node, path: Path, prefix: Path) returns (entries: Option<Entries>)
      requires Valid() && ReadAgain(w, Append(prefix, path)) == Read(w, cur, path)
      modifies this
      ensures Valid() && entries == Read(w, cur, path)
    {
      var key := Append(prefix, path);
      if key in open {
        return Some(open[key]);
      }
      entries := Read(w, cur, path);
      if entries.Some? {
        open := open[key := entries.value];
      }
    }

    // Walks name one element at a time, entering each archive on the way. Whatever the cache holds, it ends where a walk
    // that reads every archive does.
    method Resolve(name: string) returns (r: Option<Spot>)
      requires Valid()
      modifies this
      ensures Valid()
      ensures r == if ValidPath(name) then Some(Locate(w, Named(name))) else None
    {
      if !ValidPath(name) {
        return None;
      }
      if name == "." {
        return Some(Spot(Dir(w.base), Root));
      }
      var at := WalkDown(Split(name));
      r := Some(at);
    }

    method WalkDown(elems: seq<string>) returns (at: Spot)
      requires Valid()
      modifies this
      ensures Valid() && at == Locate(w, PathOf(elems))
    {
      at := Spot(Dir(w.base), Root);
      var prefix := Root;
      for i := 0 to |elems|
        invariant Valid()
        invariant at == Locate(w, PathOf(elems[..i])) && Append(prefix, at.inner) == PathOf(elems[..i])
      {
        assert elems[..i + 1][..i] == elems[..i];
        at, prefix := Enter(at, prefix, elems[i], PathOf(elems[..i]));
      }
      assert elems[..|elems|] == elems;
    }

    method Enter(at: Spot, prefix: Path, el: string, ghost done: Path) returns (now: Spot, prefixNow: Path)
      requires Valid() && at == Locate(w, done) && Append(prefix, at.inner) == done
      modifies this
      ensures Valid() && now == Locate(w, Under(done, el)) && Append(prefixNow, now.inner) == Under(done, el)
    {
      var next := Under(at.inner, el);
      if ZipName(el) {
        var entries := Archive(at.cur, next, prefix);
        if entries.Some? {
          return Spot(Dir(entries.value), Root), Append(prefix, next);
        }
      }
      now, prefixNow := Spot(at.cur, next), prefix;
    }

    // Each archive in a listing is reported as a directory.
    method AsDirs(dir: string, des: seq<DirEntry>) returns (out: seq<DirEntry>)
      requires Valid() && ValidPath(dir) && forall de | de in des :: Plain(de.name)
      modifies this
      ensures Valid() && |out| == |des|
      ensures forall i | 0 <= i < |des| :: out[i] == AsDir(w, Named(dir), des[i])
    {
      out := [];
      for i := 0 to |des|
        invariant Valid() && |out| == i
        invariant forall j | 0 <= j < i :: out[j] == AsDir(w, Named(dir), des[j])
      {
        var de := ShowEntry(dir, des[i]);
        out := out + [de];
      }
    }

    method ShowEntry(dir: string, de: DirEntry) returns (out: DirEntry)
      requires Valid() && ValidPath(dir) && Plain(de.name)
      modifies this
      ensures Valid() && out == AsDir(w, Named(dir), de)
    {
      out := de;
      if !de.dir && ZipName(de.name) {
        InDirIsUnder(dir, de.name);
        var at := Resolve(InDir(dir, de.name));
        if at.value.inner == Root {
          out := DirEntry(de.name, true);
        }
      }
    }
  }

  /* ---- a directory read page by page ---- */

  datatype Page = Page(entries: seq<DirEntry>) | End | Failed

  class ZipDirFile {
    // What the whole directory lists, or nothing when it cannot be read.
    const whole: Option<seq<DirEntry>>
    var list: seq<DirEntry>
    var read: bool

    // What is still to be read.
    function Rest(): seq<DirEntry>
      reads this
    {
      if read then list else if whole.Some? then whole.value else []
    }

    constructor (whole: Option<seq<DirEntry>>)
      ensures this.whole == whole && !read
    {
      this.whole := whole;
      list, read := [], false;
    }

    // A page takes the next entries in order, at most n of them when n is positive and all when it is not. The end is
    // reported only to a bounded read, and only once nothing is left.
    method ReadDir(n: int) returns (p: Page)
      modifies this
      ensures p == Failed <==> !old(read) && whole == None
      ensures p == Failed ==> read == old(read) && list == old(list)
      ensures p == End <==> n > 0 && old(Rest()) == [] && p != Failed
      ensures p.Page? ==> p.entries + Rest() == old(Rest()) && read
      ensures p.Page? && n > 0 ==> 0 < |p.entries| <= n
      ensures p.Page? && n <= 0 ==> Rest() == []
      ensures p == End ==> Rest() == []
    {
      if !read {
        if whole.None? {
          return Failed;
        }
        list, read := whole.value, true;
      }
      if n <= 0 {
        p := Page(list);
        list := [];
        return;
      }
      if |list| == 0 {
        return End;
      }
      var k := if n > |list| then |list| else n;
      p := Page(list[..k]);
      list := list[k..];
    }

    // Reading pages of any size to the end gives the directory whole, each entry once and in order.
    method ReadAll(n: int) returns (all: seq<DirEntry>)
      requires n > 0 && whole.Some?
      modifies this
      ensures all == old(Rest())
    {
      all := [];
      var done := false;
      while !done
        invariant all + Rest() == old(Rest())
        invariant done ==> Rest() == []
        decreases !done, |Rest()|
      {
        var p := ReadDir(n);
        match p
        case Page(entries) => all := all + entries;
        case _ => done := true;
      }
    }
  }
}

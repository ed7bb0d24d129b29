// Grouping the files under a folder into the designs they make (service/propose.go): passes that each claim files,
// first come first served.
module Propose {
  import opened Paths
  import opened Closures
  import Sorting

  const DESIGN_DESCRIPTOR := "design.yaml"
  const PROJECT_DESCRIPTOR := "project.yaml"

  datatype Revision = Revision(entry: string, companions: seq<string>)

  datatype Design = Design(folder: string, entry: string, companions: seq<string>, revisions: seq<Revision>,
                           files: seq<string>, declared: bool)

  // What the passes ask about a file: how its name reads (see PathNames), the references its contents hold (cleaned and
  // made relative to the mount, none when it cannot be read), and what the readers say of it.
  datatype World = World(
    base: string -> string,
    dir: string -> string,
    ext: string -> string,
    sibling: (string, string) -> string,
    group: string -> string,
    leads: string -> bool,
    sheets: string -> seq<string>,
    blocks: string -> seq<string>,
    lower: string -> string,
    sources: string -> seq<string>,
    readable: string -> bool,
    placesBlocks: string -> bool,
    job: string -> Option<string>,
    archive: string -> bool,
    archiveJob: string -> bool)

  /* ---- names ---- */

  function Base(f: string): string {
    var elems := Split(f);
    elems[|elems| - 1]
  }

  function DirOf(f: string): string {
    var elems := Split(f);
    Join(elems[..|elems| - 1])
  }

  // The extension of the last element, as it is spelled.
  function RawExt(f: string): string {
    Ext(Base(f))
  }

  function Stem(f: string): string {
    var b, e := Base(f), RawExt(f);
    if |e| <= |b| then b[..|b| - |e|] else b
  }

  function InDir(dir: string, name: string): string {
    if dir == "" then name else dir + "/" + name
  }

  function Sibling(f: string, e: string): string {
    InDir(DirOf(f), Stem(f) + e)
  }

  predicate Under(dir: string, f: string) {
    dir == "" || (|f| > |dir| && f[..|dir|] == dir && f[|dir|] == '/')
  }

  predicate Separator(c: char) {
    c == '-' || c == '_' || c == '.' || c == ' '
  }

  function FirstSeparator(s: string): nat {
    if s == "" || Separator(s[0]) then 0 else 1 + FirstSeparator(s[1..])
  }

  // A folded stem up to its first separator, unless it starts with one.
  function FirstWord(lower: string -> string, stem: string): string {
    var s := lower(stem);
    var i := FirstSeparator(s);
    if 0 < i < |s| then s[..i] else s
  }

  // How names read, given a way to fold case. Netlists that share a folder and a first word are one group; one whose
  // whole name is that word leads it.
  ghost predicate PathNames(w: World) {
    && (forall f :: w.base(f) == Base(f))
    && (forall f :: w.dir(f) == DirOf(f))
    && (forall f :: w.ext(f) == w.lower(RawExt(f)))
    && (forall f, e :: w.sibling(f, e) == Sibling(f, e))
    && (forall f :: w.group(f) == DirOf(f) + "\U{0000}" + FirstWord(w.lower, Stem(f)))
    && (forall f :: w.leads(f) == (w.lower(Stem(f)) == FirstWord(w.lower, Stem(f))))
  }

  const VIEWS := [".eds", ".kicad_sch", ".kicad_pcb"]

  // What the passes rely on of names: a sibling has the extension it was made with, and walking up a folder ends.
  ghost predicate SaneNames(w: World) {
    && (forall f, e | e in VIEWS || e == ".kicad_pro" :: w.ext(w.sibling(f, e)) == e)
    && (forall d :: w.dir(d) == "" || |w.dir(d)| < |d|)
  }

  lemma DirIsShorter(f: string)
    ensures DirOf(f) == "" || |DirOf(f)| < |f|
  {
    var elems := Split(f);
    var front := elems[..|elems| - 1];
    JoinSplit(f);
    if front != [] {
      assert elems == front + [elems[|elems| - 1]];
      JoinAppends(front, [elems[|elems| - 1]]);
    }
  }

  lemma SiblingExt(f: string, e: string)
    requires e != "" && e[0] == '.' && '.' !in e[1..] && '/' !in e
    ensures RawExt(Sibling(f, e)) == e
  {
    var name := Stem(f) + e;
    assert Base(f) in Split(f);
    assert '/' !in name;
    SplitWhole(name);
    if DirOf(f) != "" {
      SplitAppends(DirOf(f), name);
    }
    assert Base(Sibling(f, e)) == name;
    LastDotOf(Stem(f), e);
  }

  lemma ViewIsSuffix(e: string)
    requires e in VIEWS || e == ".kicad_pro"
    ensures e != "" && e[0] == '.' && '.' !in e[1..] && '/' !in e
  {
  }

  lemma PathNamesAreSane(w: World)
    requires PathNames(w) && forall e | e in VIEWS || e == ".kicad_pro" :: w.lower(e) == e
    ensures SaneNames(w)
  {
    forall f, e | e in VIEWS || e == ".kicad_pro" ensures w.ext(w.sibling(f, e)) == e {
      ViewIsSuffix(e);
      SiblingExt(f, e);
      assert w.ext(Sibling(f, e)) == w.lower(RawExt(Sibling(f, e)));
    }
    forall d ensures w.dir(d) == "" || |w.dir(d)| < |d| {
      DirIsShorter(d);
    }
  }

  predicate Netlist(w: World, f: string) {
    w.ext(f) in {".edn", ".edf", ".edif"}
  }

  predicate Library(w: World, f: string) {
    w.ext(f) in {".kicad_sym", ".kicad_mod", ".kicad_prl", ".kicad_dru"} || w.base(f) in {"sym-lib-table", "fp-lib-table"}
  }

  // A file a reader opens as a design of its own: not a board, and of archives only those that hold a job.
  predicate Readable(w: World, f: string) {
    w.ext(f) != ".kicad_pcb" && w.readable(f) && (w.archive(f) ==> w.archiveJob(f))
  }

  /* ---- counting ---- */

  // How often each file is listed by the designs.
  ghost function Listed(designs: seq<Design>): multiset<string> {
    if designs == [] then multiset{} else multiset(designs[0].files) + Listed(designs[1..])
  }

  lemma {:induction false} ListedAppends(a: seq<Design>, d: Design)
    ensures Listed(a + [d]) == Listed(a) + multiset(d.files)
  {
    if a == [] {
      assert a + [d] == [d];
      assert [d][1..] == [];
    } else {
      ListedAppends(a[1..], d);
      assert (a + [d])[1..] == a[1..] + [d];
    }
  }

  lemma {:induction false} ListedGrows(a: seq<Design>, i: nat, d: Design, f: string)
    requires i < |a| && multiset(d.files) == multiset(a[i].files) + multiset{f}
    ensures Listed(a[i := d]) == Listed(a) + multiset{f}
  {
    if i > 0 {
      ListedGrows(a[1..], i - 1, d, f);
      assert a[i := d][1..] == a[1..][i - 1 := d];
    } else {
      assert a[i := d][1..] == a[1..];
    }
  }

  lemma {:induction false} ListedSomewhere(a: seq<Design>, f: string)
    ensures f in Listed(a) <==> exists d :: d in a && f in d.files
  {
    if a != [] {
      ListedSomewhere(a[1..], f);
      assert a == [a[0]] + a[1..];
    }
  }

  function ByFolder(): (Design, Design) -> bool {
    (a: Design, b: Design) => Sorting.Before(a.folder, b.folder)
  }

  lemma {:induction false} ListedInserts(x: Design, a: seq<Design>)
    ensures Listed(Sorting.Insert(ByFolder(), x, a)) == multiset(x.files) + Listed(a)
  {
    if a == [] || !ByFolder()(a[0], x) {
      assert ([x] + a)[1..] == a;
    } else {
      ListedInserts(x, a[1..]);
      var rest := Sorting.Insert(ByFolder(), x, a[1..]);
      assert ([a[0]] + rest)[1..] == rest;
    }
  }

  lemma {:induction false} ListedSorts(a: seq<Design>)
    ensures Listed(Sorting.Sort(ByFolder(), a)) == Listed(a)
  {
    if a != [] {
      ListedSorts(a[1..]);
      ListedInserts(a[0], Sorting.Sort(ByFolder(), a[1..]));
    }
  }

  /* ---- sheets two proposals may list ---- */

  function Files(files: seq<string>): set<string> {
    set f | f in files
  }

  // A sheet beside a netlist of its name reaches f through child-sheet references. The netlist pass lists everything
  // so reached, whoever claimed it before.
  ghost predicate ReadByNetlist(w: World, files: seq<string>, f: string) {
    exists n :: n in files && Netlist(w, n) && w.sibling(n, ".kicad_sch") in files
                && Reaches(w.sheets, Files(files), w.sibling(n, ".kicad_sch"), f)
  }

  // A sheet names, as if it were a child sheet, the board it is listed with.
  ghost predicate BoardReadAsSheet(w: World, files: seq<string>, f: string) {
    exists s :: s in files && w.sibling(s, ".kicad_pcb") == f && Reaches(w.sheets, Files(files), s, f)
  }

  // A file that may be listed more than once.
  ghost predicate MayRepeat(w: World, files: seq<string>, f: string) {
    w.ext(f) == ".kicad_pro" || ReadByNetlist(w, files, f) || BoardReadAsSheet(w, files, f)
  }

  // How often the answer lists a file.
  ghost function Count(designs: seq<Design>, support: seq<string>, f: string): nat {
    (Listed(designs) + multiset(support))[f]
  }

  // What is claimed is what the answer lists, and of the files given; and only a file that may repeat is listed twice.
  ghost predicate Accounted(w: World, files: seq<string>, claimed: set<string>, designs: seq<Design>, support: seq<string>) {
    && claimed <= Files(files)
    && (forall f {:trigger Count(designs, support, f)} :: f in claimed <==> Count(designs, support, f) > 0)
    && (forall f {:trigger Count(designs, support, f)} | Count(designs, support, f) > 1 :: MayRepeat(w, files, f))
  }

  lemma DesignListed(w: World, files: seq<string>, claimed: set<string>, designs: seq<Design>, support: seq<string>, d: Design)
    requires Accounted(w, files, claimed, designs, support)
    requires forall f | f in d.files :: f in files
    requires forall f | multiset(d.files)[f] > 1 :: MayRepeat(w, files, f)
    requires forall f | f in d.files :: f !in claimed || MayRepeat(w, files, f)
    ensures Accounted(w, files, claimed + Files(d.files), designs + [d], support)
  {
    ListedAppends(designs, d);
    forall f ensures Count(designs + [d], support, f) == Count(designs, support, f) + multiset(d.files)[f] {
    }
    forall f ensures f in d.files <==> multiset(d.files)[f] > 0 {
    }
  }

  lemma SupportListed(w: World, files: seq<string>, claimed: set<string>, designs: seq<Design>, support: seq<string>, f: string)
    requires Accounted(w, files, claimed, designs, support) && f in files && f !in claimed
    ensures Accounted(w, files, claimed + {f}, designs, support + [f])
  {
    forall g ensures Count(designs, support + [f], g) == Count(designs, support, g) + if g == f then 1 else 0 {
      assert multiset(support + [f]) == multiset(support) + multiset{f};
    }
  }

  lemma SortedListsSame(d: Design)
    ensures multiset(d.files) == multiset(Sorting.Sort(Sorting.Before, d.files))
    ensures Files(d.files) == Files(Sorting.Sort(Sorting.Before, d.files))
    ensures forall f :: f in d.files <==> f in Sorting.Sort(Sorting.Before, d.files)
  {
    Sorting.SortPermutes(Sorting.Before, d.files);
    Sorting.SameMembers(Sorting.Sort(Sorting.Before, d.files), d.files);
  }

  /* ---- the proposer ---- */

  class Proposer {
    const w: World
    const files: seq<string>
    var claimed: set<string>
    var designs: seq<Design>
    var support: seq<string>
    var unread: seq<string>
    var kicadDirs: map<string, nat>
    var projectDirs: seq<string>

    ghost predicate Valid()
      reads this
    {
      && SaneNames(w) && Accounted(w, files, claimed, designs, support)
      && (forall d | d in kicadDirs :: kicadDirs[d] < |designs|)
    }

    predicate Free(f: string)
      reads this
    {
      f in files && f !in claimed
    }

    constructor (w: World, given: seq<string>)
      requires SaneNames(w)
      ensures Valid() && this.w == w && claimed == {} && designs == [] && support == [] && unread == []
      ensures files == Sorting.Sort(Sorting.Before, given)
    {
      this.w := w;
      files := Sorting.Sort(Sorting.Before, given);
      claimed, designs, support, unread := {}, [], [], [];
      kicadDirs, projectDirs := map[], [];
    }

    // Claims the files of a design and records it.
    method Add(d: Design)
      requires Valid()
      requires forall f | f in d.files :: f in files
      requires forall f | multiset(d.files)[f] > 1 :: MayRepeat(w, files, f)
      requires forall f | f in d.files :: f !in claimed || MayRepeat(w, files, f)
      modifies `claimed, `designs
      ensures Valid()
      ensures claimed == old(claimed) + Files(d.files)
      ensures designs == old(designs) + [d.(files := Sorting.Sort(Sorting.Before, d.files))]
    {
      SortedListsSame(d);
      var sorted := d.(files := Sorting.Sort(Sorting.Before, d.files));
      DesignListed(w, files, claimed, designs, support, sorted);
      claimed := claimed + Files(d.files);
      designs := designs + [sorted];
    }

    // Claims free files, each once, as one design.
    method AddFree(d: Design)
      requires Valid() && Sorting.NoRepeats(d.files)
      requires forall f | f in d.files :: Free(f)
      modifies `claimed, `designs
      ensures Valid()
      ensures claimed == old(claimed) + Files(d.files)
      ensures designs == old(designs) + [d.(files := Sorting.Sort(Sorting.Before, d.files))]
    {
      forall f ensures multiset(d.files)[f] <= 1 {
        Sorting.OccursOnce(d.files, f);
      }
      Add(d);
    }

    method Support(f: string)
      requires Valid() && Free(f)
      modifies `claimed, `support
      ensures Valid() && claimed == old(claimed) + {f} && support == old(support) + [f]
    {
      SupportListed(w, files, claimed, designs, support, f);
      claimed := claimed + {f};
      support := support + [f];
    }

    method FreeUnder(dir: string) returns (owned: seq<string>)
      ensures Sorting.NoRepeats(owned) && forall f :: f in owned <==> Free(f) && Under(dir, f)
    {
      owned := [];
      for i := 0 to |files|
        invariant Sorting.NoRepeats(owned) && forall f :: f in owned <==> Free(f) && Under(dir, f) && f in files[..i]
      {
        assert files[..i + 1] == files[..i] + [files[i]];
        if Under(dir, files[i]) && Free(files[i]) && files[i] !in owned {
          owned := owned + [files[i]];
        }
      }
      assert files[..|files|] == files;
    }

    // A folder holding a design descriptor is a design, of every file under it.
    method Declared()
      requires Valid()
      modifies `claimed, `designs
      ensures Valid() && old(claimed) <= claimed && old(designs) <= designs
      ensures forall f | f in files && w.base(f) == DESIGN_DESCRIPTOR ::
                DeclaredAt(designs, w.dir(f)) && AllUnder(files, claimed, w.dir(f))
      ensures forall f | f in claimed :: f in old(claimed) || InDeclared(designs, f)
    {
      for i := 0 to |files|
        invariant Valid() && old(claimed) <= claimed && old(designs) <= designs
        invariant forall j | 0 <= j < i && w.base(files[j]) == DESIGN_DESCRIPTOR ::
                    DeclaredAt(designs, w.dir(files[j])) && AllUnder(files, claimed, w.dir(files[j]))
        invariant forall f | f in claimed :: f in old(claimed) || InDeclared(designs, f)
      {
        if w.base(files[i]) == DESIGN_DESCRIPTOR {
          DeclareAt(w.dir(files[i]));
        }
      }
    }

    method DeclareAt(folder: string)
      requires Valid()
      modifies `claimed, `designs
      ensures Valid() && old(claimed) <= claimed && old(designs) <= designs
      ensures DeclaredAt(designs, folder) && AllUnder(files, claimed, folder)
      ensures forall other | DeclaredAt(old(designs), other) :: DeclaredAt(designs, other)
      ensures forall other | AllUnder(files, old(claimed), other) :: AllUnder(files, claimed, other)
      ensures forall f | f in claimed :: f in old(claimed) || InDeclared(designs, f)
      ensures forall f | InDeclared(old(designs), f) :: InDeclared(designs, f)
    {
      var owned := FreeUnder(folder);
      var d := Design(folder, "", [], [], owned, true);
      SortedListsSame(d);
      AddFree(d);
      PrefixKeeps(old(designs), designs);
      KeepsFacts(old(designs), designs);
      assert designs[|old(designs)|] in designs;
    }

    // A project descriptor and the files it names are support files.
    method Projects()
      requires Valid()
      modifies `claimed, `support, `projectDirs
      ensures Valid() && Supports(old(claimed), old(support), claimed, support)
      ensures forall f | f in files && w.base(f) == PROJECT_DESCRIPTOR :: f in claimed
    {
      for i := 0 to |files|
        invariant Valid() && Supports(old(claimed), old(support), claimed, support)
        invariant forall j | 0 <= j < i && w.base(files[j]) == PROJECT_DESCRIPTOR :: files[j] in claimed
      {
        if w.base(files[i]) == PROJECT_DESCRIPTOR && Free(files[i]) {
          ghost var c, p := claimed, support;
          SupportProject(files[i]);
          SupportsOn(old(claimed), old(support), c, p, claimed, support);
        }
      }
    }

    method SupportProject(f: string)
      requires Valid() && Free(f)
      modifies `claimed, `support, `projectDirs
      ensures Valid() && Supports(old(claimed), old(support), claimed, support) && f in claimed
    {
      Support(f);
      projectDirs := projectDirs + [w.dir(f)];
      ghost var c, p := claimed, support;
      assert p[|p| - 1] == f && Supports(old(claimed), old(support), c, p);
      SupportNamed(w.sources(f));
      SupportsOn(old(claimed), old(support), c, p, claimed, support);
    }

    method SupportNamed(named: seq<string>)
      requires Valid()
      modifies `claimed, `support
      ensures Valid() && Supports(old(claimed), old(support), claimed, support)
      ensures forall f, n | f in files && n in named && (f == n || Under(n, f)) :: f in claimed
    {
      for i := 0 to |named|
        invariant Valid() && Supports(old(claimed), old(support), claimed, support)
        invariant forall f, j | f in files && 0 <= j < i && (f == named[j] || Under(named[j], f)) :: f in claimed
      {
        SupportAt(named[i]);
      }
    }

    method SupportAt(named: string)
      requires Valid()
      modifies `claimed, `support
      ensures Valid() && Supports(old(claimed), old(support), claimed, support)
      ensures forall f | f in files && (f == named || Under(named, f)) :: f in claimed
    {
      for k := 0 to |files|
        invariant Valid() && Supports(old(claimed), old(support), claimed, support)
        invariant forall j | 0 <= j < k && (files[j] == named || Under(named, files[j])) :: files[j] in claimed
      {
        if (files[k] == named || Under(named, files[k])) && Free(files[k]) {
          Support(files[k]);
        }
      }
    }

    /* netlists */

    // The views of a netlist's name beside it, which are free.
    function Views(n: string): seq<string>
      reads this
    {
      (if Free(w.sibling(n, ".eds")) then [w.sibling(n, ".eds")] else [])
      + (if Free(w.sibling(n, ".kicad_sch")) then [w.sibling(n, ".kicad_sch")] else [])
      + (if Free(w.sibling(n, ".kicad_pcb")) then [w.sibling(n, ".kicad_pcb")] else [])
    }

    // What a netlist's design may list beside its netlists: a free file that is not one, or a sheet it reads.
    ghost predicate Beside(f: string)
      reads this
    {
      f in files && ((Free(f) && !Netlist(w, f)) || ReadByNetlist(w, files, f))
    }

    ghost predicate AwaitsDesign(n: string)
      reads this
    {
      n in files && Netlist(w, n) && (Free(n) || ReadByNetlist(w, files, n))
    }

    ghost predicate HoldsSheets(c: string, out: seq<string>)
      reads this
    {
      forall f | Reaches(w.sheets, Files(files), c, f) :: f in out
    }

    lemma SheetsStay(c: string, out: seq<string>, more: seq<string>)
      requires HoldsSheets(c, out) || HoldsSheets(c, more)
      ensures HoldsSheets(c, out + more)
    {
    }

    // Read as view c of a netlist: every sheet a KiCad schematic reaches, and otherwise the view alone.
    ghost predicate ReadFrom(c: string, f: string)
      reads this
    {
      if w.ext(c) == ".kicad_sch" then Reaches(w.sheets, Files(files), c, f) else f == c
    }

    ghost predicate ReadFromAny(views: seq<string>, f: string)
      reads this
    {
      exists c :: c in views && ReadFrom(c, f)
    }

    // What netlist n's design reads.
    ghost predicate ReadsFor(n: string, f: string)
      reads this
    {
      f == n || ReadFromAny(Views(n), f) || (f == w.sibling(n, ".kicad_pro") && Free(f))
    }

    ghost predicate ReadsForAny(nets: seq<string>, f: string)
      reads this
    {
      exists n :: n in nets && ReadsFor(n, f)
    }

    ghost predicate ReadsExactly(nets: seq<string>, fs: seq<string>)
      reads this
    {
      forall f :: f in fs <==> ReadsForAny(nets, f)
    }

    lemma SameReads(nets: seq<string>, fs: seq<string>, gs: seq<string>)
      requires ReadsExactly(nets, fs) && SameNoRepeats(fs, gs)
      ensures ReadsExactly(nets, gs)
    {
    }

    // What the design of netlist n reads: the netlist, its views, the sheets its schematic reaches, its project file.
    method Reads(n: string) returns (out: seq<string>)
      requires n in files && Netlist(w, n) && SaneNames(w)
      ensures forall f :: f in out <==> ReadsFor(n, f)
      ensures out != [] && out[0] == n
      ensures forall f | f in out :: f == n || Beside(f)
      ensures forall f | f in Views(n) :: f in out
      ensures Free(w.sibling(n, ".kicad_sch")) ==> HoldsSheets(w.sibling(n, ".kicad_sch"), out)
    {
      out := ReadViews(n);
      if Free(w.sibling(n, ".kicad_pro")) {
        if Free(w.sibling(n, ".kicad_sch")) {
          SheetsStay(w.sibling(n, ".kicad_sch"), out, [w.sibling(n, ".kicad_pro")]);
        }
        out := out + [w.sibling(n, ".kicad_pro")];
      }
    }

    method ReadViews(n: string) returns (out: seq<string>)
      requires n in files && Netlist(w, n) && SaneNames(w)
      ensures out != [] && out[0] == n
      ensures forall f | f in out :: f == n || Beside(f)
      ensures forall f | f in Views(n) :: f in out
      ensures w.sibling(n, ".kicad_sch") in Views(n) ==> HoldsSheets(w.sibling(n, ".kicad_sch"), out)
      ensures forall f :: f in out <==> f == n || ReadFromAny(Views(n), f)
    {
      out := [n];
      var views := Views(n);
      for i := 0 to |views|
        invariant forall f :: f in out <==> f == n || ReadFromAny(views[..i], f)
        invariant out != [] && out[0] == n
        invariant forall f | f in out :: f == n || Beside(f)
        invariant forall j | 0 <= j < i :: views[j] in out
        invariant w.sibling(n, ".kicad_sch") in views[..i] ==> HoldsSheets(w.sibling(n, ".kicad_sch"), out)
      {
        assert views[..i + 1] == views[..i] + [views[i]];
        var more := ReadView(n, views[i]);
        if w.sibling(n, ".kicad_sch") in views[..i + 1] {
          SheetsStay(w.sibling(n, ".kicad_sch"), out, more);
        }
        out := out + more;
      }
      assert views[..|views|] == views;
    }

    method ReadView(n: string, c: string) returns (more: seq<string>)
      requires n in files && Netlist(w, n) && SaneNames(w) && c in Views(n)
      ensures c in more && forall f :: f in more <==> ReadFrom(c, f)
      ensures forall f | f in more :: Beside(f)
      ensures c == w.sibling(n, ".kicad_sch") ==> HoldsSheets(c, more)
    {
      assert ".eds" in VIEWS && ".kicad_sch" in VIEWS && ".kicad_pcb" in VIEWS;
      if w.ext(c) == ".kicad_sch" {
        more := Closure(c, w.sheets, Files(files));
        assert more[0] in more;
        ReachedIsPresent(w.sheets, Files(files), c);
      } else {
        more := [c];
      }
    }

    // A group's entry: the first netlist named just what the group shares, or else the first with a view beside it, or
    // else the first.
    method PickEntry(nets: seq<string>) returns (entry: string)
      requires nets != []
      ensures exists i :: 0 <= i < |nets| && nets[i] == entry && LeadsGroup(nets, i)
    {
      entry := nets[0];
      ghost var at := 0;
      for i := 0 to |nets|
        invariant entry == nets[0] && at == 0
        invariant forall j | 0 <= j < i :: Views(nets[j]) == []
      {
        if |Views(nets[i])| > 0 {
          entry, at := nets[i], i;
          break;
        }
      }
      for i := 0 to |nets|
        invariant at < |nets| && entry == nets[at]
        invariant forall j | 0 <= j < i :: !w.leads(nets[j])
        invariant if Views(nets[at]) != [] then forall j | 0 <= j < at :: Views(nets[j]) == []
                  else at == 0 && forall j | 0 <= j < |nets| :: Views(nets[j]) == []
      {
        if w.leads(nets[i]) {
          entry := nets[i];
          assert LeadsGroup(nets, i);
          return;
        }
      }
      assert LeadsGroup(nets, at);
    }

    ghost predicate LeadsGroup(nets: seq<string>, i: nat)
      requires i < |nets|
      reads this
    {
      if w.leads(nets[i]) then forall j | 0 <= j < i :: !w.leads(nets[j])
      else
        && (forall j | 0 <= j < |nets| :: !w.leads(nets[j]))
        && if Views(nets[i]) != [] then forall j | 0 <= j < i :: Views(nets[j]) == []
           else i == 0 && forall j | 0 <= j < |nets| :: Views(nets[j]) == []
    }

    // The netlists of a group but its entry, each with its own views.
    function RevisionsOf(nets: seq<string>, entry: string): seq<Revision>
      reads this
    {
      if nets == [] then []
      else
        var rest, n := RevisionsOf(nets[..|nets| - 1], entry), nets[|nets| - 1];
        if n == entry then rest else rest + [Revision(n, Views(n))]
    }

    lemma {:induction false} RevisionsCover(nets: seq<string>, entry: string)
      ensures forall n | n in nets :: n == entry || n in RevisionEntries(RevisionsOf(nets, entry))
    {
      if nets != [] {
        var front, n := nets[..|nets| - 1], nets[|nets| - 1];
        RevisionsCover(front, entry);
        assert nets == front + [n];
        if n != entry {
          var rest := RevisionsOf(front, entry);
          assert (rest + [Revision(n, Views(n))])[|rest|].entry == n;
          assert RevisionEntries(rest) <= RevisionEntries(rest + [Revision(n, Views(n))]);
        }
      }
    }

    // One design of a group of netlists.
    method GroupDesign(nets: seq<string>)
      requires Valid() && nets != []
      requires forall n | n in nets :: AwaitsDesign(n)
      modifies `claimed, `designs, `kicadDirs
      ensures Valid() && old(claimed) <= claimed && |designs| == |old(designs)| + 1 && old(designs) <= designs
      ensures var d := designs[|designs| - 1];
              && d.entry in nets && d.revisions == old(RevisionsOf(nets, d.entry)) && d.companions == old(Views(d.entry))
              && !d.declared && d.folder == w.dir(d.entry) && Sorting.NoRepeats(d.files)
              && old(ReadsExactly(nets, d.files))
      ensures forall n | n in nets :: n in claimed && Proposes(designs[|designs| - 1], n)
      ensures forall f | f in claimed :: f in old(claimed) || f in nets || !Netlist(w, f) || ReadByNetlist(w, files, f)
    {
      var entry := PickEntry(nets);
      var listed, revisions := ListGroup(nets, entry);
      var companions := Views(entry);
      AddRead(Design(w.dir(entry), entry, companions, revisions, listed, false), nets);
      NoteKicad(w.dir(entry), companions);
    }

    // What the design of a group lists, and its revisions. Sorting the list leaves it listing the same.
    method ListGroup(nets: seq<string>, entry: string) returns (listed: seq<string>, revisions: seq<Revision>)
      requires SaneNames(w)
      requires forall n | n in nets :: AwaitsDesign(n)
      ensures revisions == RevisionsOf(nets, entry)
      ensures forall n | n in nets :: n == entry || n in RevisionEntries(revisions)
      ensures Sorting.NoRepeats(listed) && Gathered(nets, listed)
      ensures ReadsExactly(nets, Sorting.Sort(Sorting.Before, listed))
      ensures Sorting.NoRepeats(Sorting.Sort(Sorting.Before, listed))
    {
      var taken;
      taken, revisions := ReadGroup(nets, entry);
      listed := Dedupe(taken);
      SortedOnce(listed);
      SameReads(nets, taken, Sorting.Sort(Sorting.Before, listed));
    }
    // The same files, each once.
    static ghost predicate SameNoRepeats(a: seq<string>, b: seq<string>) {
      Sorting.NoRepeats(b) && forall f :: f in b <==> f in a
    }

    static lemma SortedOnce(fs: seq<string>)
      requires Sorting.NoRepeats(fs)
      ensures SameNoRepeats(fs, Sorting.Sort(Sorting.Before, fs))
    {
      var sorted := Sorting.Sort(Sorting.Before, fs);
      Sorting.SortPermutes(Sorting.Before, fs);
      Sorting.SameMembers(sorted, fs);
      Sorting.DistinctStays(fs, sorted);
    }

    method AddRead(d: Design, ghost nets: seq<string>)
      requires Valid() && Sorting.NoRepeats(d.files)
      requires forall n | n in nets :: AwaitsDesign(n)
      requires forall f | f in d.files :: f in nets || Beside(f)
      modifies `claimed, `designs
      ensures Valid()
      ensures claimed == old(claimed) + Files(d.files)
      ensures designs == old(designs) + [d.(files := Sorting.Sort(Sorting.Before, d.files))]
    {
      forall f ensures multiset(d.files)[f] <= 1 {
        Sorting.OccursOnce(d.files, f);
      }
      forall f | f in d.files ensures f in files && (f !in claimed || MayRepeat(w, files, f)) {
        assert f in nets ==> AwaitsDesign(f);
      }
      Add(d);
    }

    // The first design of a folder with a KiCad view is the one its libraries go to.
    method NoteKicad(folder: string, companions: seq<string>)
      requires Valid() && designs != []
      modifies `kicadDirs
      ensures Valid()
      ensures kicadDirs == if folder !in old(kicadDirs) && exists c :: c in companions && KicadView(w, c)
                           then old(kicadDirs)[folder := |designs| - 1] else old(kicadDirs)
    {
      for i := 0 to |companions|
        invariant forall d | d in kicadDirs :: kicadDirs[d] < |designs|
        invariant kicadDirs == if folder !in old(kicadDirs) && exists j :: 0 <= j < i && KicadView(w, companions[j])
                               then old(kicadDirs)[folder := |designs| - 1] else old(kicadDirs)
      {
        if KicadView(w, companions[i]) && folder !in kicadDirs {
          kicadDirs := kicadDirs[folder := |designs| - 1];
        }
      }
    }

    // taken lists the netlists done so far, and beside them only what their design may list.
    ghost predicate Gathered(done: seq<string>, taken: seq<string>)
      reads this
    {
      && (forall n | n in done :: n in taken)
      && (forall f | f in taken :: f in done || Beside(f))
    }

    method ReadGroup(nets: seq<string>, entry: string) returns (taken: seq<string>, revisions: seq<Revision>)
      requires SaneNames(w)
      requires forall n | n in nets :: AwaitsDesign(n)
      ensures revisions == RevisionsOf(nets, entry)
      ensures forall n | n in nets :: n == entry || n in RevisionEntries(revisions)
      ensures Gathered(nets, taken) && ReadsExactly(nets, taken)
    {
      taken, revisions := [], [];
      for i := 0 to |nets|
        invariant ReadsExactly(nets[..i], taken)
        invariant revisions == RevisionsOf(nets[..i], entry)
        invariant Gathered(nets[..i], taken)
      {
        assert nets[..i + 1][..i] == nets[..i] && nets[..i + 1] == nets[..i] + [nets[i]];
        taken := ReadNext(nets[i], taken, nets[..i]);
        if nets[i] != entry {
          revisions := revisions + [Revision(nets[i], Views(nets[i]))];
        }
      }
      assert nets[..|nets|] == nets;
      RevisionsCover(nets, entry);
    }

    method ReadNext(n: string, was: seq<string>, ghost done: seq<string>) returns (taken: seq<string>)
      requires SaneNames(w) && AwaitsDesign(n) && Gathered(done, was) && ReadsExactly(done, was)
      ensures Gathered(done + [n], taken) && ReadsExactly(done + [n], taken)
    {
      var more := Reads(n);
      assert n in more;
      taken := was + more;
    }

    static method Dedupe(fs: seq<string>) returns (out: seq<string>)
      ensures Sorting.NoRepeats(out) && forall f :: f in out <==> f in fs
    {
      var seen := {};
      out := [];
      for i := 0 to |fs|
        invariant Sorting.NoRepeats(out) && forall f :: f in out <==> f in fs[..i]
        invariant forall f :: f in seen <==> f in out
      {
        assert fs[..i + 1] == fs[..i] + [fs[i]];
        if fs[i] !in seen {
          seen := seen + {fs[i]};
          out := out + [fs[i]];
        }
      }
      assert fs[..|fs|] == fs;
    }

    method Groups() returns (keys: seq<string>, groups: map<string, seq<string>>)
      ensures Sorting.NoRepeats(keys) && forall k :: k in keys <==> k in groups
      ensures forall k | k in keys :: groups[k] != []
      ensures forall k, n | k in keys && n in groups[k] :: n in files && Netlist(w, n) && Free(n) && w.group(n) == k
      ensures forall n | n in files && Netlist(w, n) && Free(n) :: w.group(n) in keys && n in groups[w.group(n)]
    {
      keys, groups := [], map[];
      for i := 0 to |files|
        invariant Sorting.NoRepeats(keys) && forall k :: k in keys <==> k in groups
        invariant forall k | k in keys :: groups[k] != []
        invariant forall k, n | k in keys && n in groups[k] :: n in files && Netlist(w, n) && Free(n) && w.group(n) == k
        invariant forall j | 0 <= j < i && Netlist(w, files[j]) && Free(files[j]) ::
                    w.group(files[j]) in keys && files[j] in groups[w.group(files[j])]
      {
        var f := files[i];
        if Netlist(w, f) && Free(f) {
          var k := w.group(f);
          if k !in groups {
            keys := keys + [k];
            groups := groups[k := [f]];
          } else {
            groups := groups[k := groups[k] + [f]];
          }
        }
      }
    }

    // Of the netlists free at first, those claimed since are of a group already turned into a design, or sheets of one.
    ghost predicate Charged(first: set<string>, done: seq<string>)
      reads this
    {
      forall f | f in claimed && f in files && Netlist(w, f) && f !in first :: w.group(f) in done || ReadByNetlist(w, files, f)
    }

    // Netlists in groups, and then the schematic exports left.
    method Edif()
      requires Valid()
      modifies `claimed, `designs, `kicadDirs
      ensures Valid() && old(claimed) <= claimed && old(designs) <= designs
      ensures forall n | n in files && Netlist(w, n) && old(Free(n)) :: Proposed(designs, n)
      ensures forall f | f in files && w.ext(f) == ".eds" :: f in claimed
    {
      var keys, groups := Groups();
      GroupsInTurn(keys, groups);
      LoneExports();
    }

    method GroupsInTurn(keys: seq<string>, groups: map<string, seq<string>>)
      requires Valid() && Sorting.NoRepeats(keys) && forall k | k in keys :: k in groups && groups[k] != []
      requires forall k, n | k in keys && n in groups[k] :: n in files && Netlist(w, n) && Free(n) && w.group(n) == k
      modifies `claimed, `designs, `kicadDirs
      ensures Valid() && old(claimed) <= claimed && old(designs) <= designs
      ensures forall k, n | k in keys && n in groups[k] :: Proposed(designs, n)
    {
      for i := 0 to |keys|
        invariant Valid() && old(claimed) <= claimed && old(designs) <= designs
        invariant forall j, n | 0 <= j < i && n in groups[keys[j]] :: Proposed(designs, n)
        invariant Charged(old(claimed), keys[..i])
      {
        assert keys[..i + 1] == keys[..i] + [keys[i]];
        NextGroup(groups[keys[i]], keys[i], old(claimed), keys[..i]);
      }
    }

    method NextGroup(nets: seq<string>, key: string, ghost first: set<string>, ghost done: seq<string>)
      requires Valid() && nets != [] && key !in done && Charged(first, done)
      requires forall n | n in nets :: n in files && Netlist(w, n) && n !in first && w.group(n) == key
      modifies `claimed, `designs, `kicadDirs
      ensures Valid() && old(claimed) <= claimed && old(designs) <= designs
      ensures forall n | n in nets :: Proposed(designs, n)
      ensures forall n | Proposed(old(designs), n) :: Proposed(designs, n)
      ensures Charged(first, done + [key])
    {
      forall n | n in nets ensures AwaitsDesign(n) {
      }
      GroupDesign(nets);
      PrefixKeeps(old(designs), designs);
      KeepsFacts(old(designs), designs);
      assert designs[|designs| - 1] in designs;
      forall f | f in claimed && f in files && Netlist(w, f) && f !in first
        ensures w.group(f) in done + [key] || ReadByNetlist(w, files, f)
      {
      }
    }

    method LoneExports()
      requires Valid()
      modifies `claimed, `designs
      ensures Valid() && old(claimed) <= claimed && old(designs) <= designs
      ensures forall n | Proposed(old(designs), n) :: Proposed(designs, n)
      ensures forall f | f in files && w.ext(f) == ".eds" :: f in claimed
    {
      for i := 0 to |files|
        invariant Valid() && old(claimed) <= claimed && old(designs) <= designs
        invariant forall j | 0 <= j < i && w.ext(files[j]) == ".eds" :: files[j] in claimed
      {
        if w.ext(files[i]) == ".eds" && Free(files[i]) {
          AddAlone(files[i]);
        }
      }
      PrefixKeeps(old(designs), designs);
      KeepsFacts(old(designs), designs);
    }

    method AddAlone(f: string)
      requires Valid() && Free(f)
      modifies `claimed, `designs
      ensures Valid() && claimed == old(claimed) + {f} && old(designs) <= designs
      ensures designs == old(designs) + [Design(w.dir(f), f, [], [], [f], false)]
    {
      assert Files([f]) == {f};
      assert Sorting.Sort(Sorting.Before, [f]) == [f] by {
        assert [f][1..] == [];
      }
      AddFree(Design(w.dir(f), f, [], [], [f], false));
    }

    /* KiCad designs */

    // A project file, or a sheet that no project file names, as a design: the sheets it reaches that are free, and its
    // board. A project file with no sheet of its name is its own entry, and is then listed twice over.
    method KicadDesign(entry: string, extra: seq<string>)
      requires Valid() && entry in files && StartsKicad(entry, extra)
      modifies `claimed, `designs, `kicadDirs
      ensures Valid() && Grew(old(claimed), old(designs), claimed, designs) && |designs| == |old(designs)| + 1
      ensures KicadLists(w, files, old(claimed), entry, extra, designs[|old(designs)|])
      ensures claimed == old(claimed) + Files(designs[|old(designs)|].files)
      ensures entry in claimed && forall f | f in extra :: f in claimed
      ensures extra == [entry] ==> designs == old(designs) + [Design(w.dir(entry), entry, [], [], [entry, entry], false)]
      ensures w.dir(entry) in kicadDirs
    {
      AddKicad(entry, extra);
      NoteFolder(w.dir(entry));
    }

    ghost predicate StartsKicad(entry: string, extra: seq<string>)
      reads this
    {
      if extra == [] then Free(entry) && w.ext(entry) == ".kicad_sch"
      else && |extra| == 1 && Free(extra[0]) && w.ext(extra[0]) == ".kicad_pro"
           && (entry == extra[0] || (Free(entry) && w.ext(entry) == ".kicad_sch"))
    }

    method AddKicad(entry: string, extra: seq<string>)
      requires Valid() && entry in files && StartsKicad(entry, extra)
      modifies `claimed, `designs
      ensures Valid() && Grew(old(claimed), old(designs), claimed, designs) && |designs| == |old(designs)| + 1
      ensures KicadLists(w, files, old(claimed), entry, extra, designs[|old(designs)|])
      ensures claimed == old(claimed) + Files(designs[|old(designs)|].files)
      ensures entry in claimed && forall f | f in extra :: f in claimed
      ensures extra == [entry] ==> designs == old(designs) + [Design(w.dir(entry), entry, [], [], [entry, entry], false)]
    {
      PairSorts(entry);
      var listed, companions := KicadFiles(entry, extra);
      ghost var d := Design(w.dir(entry), entry, companions, [], listed, false);
      SortedListsSame(d);
      SortedKicadLists(w, files, claimed, entry, extra, d);
      assert entry in d.files && forall f | f in extra :: f in d.files;
      Add(Design(w.dir(entry), entry, companions, [], listed, false));
      assert designs[|old(designs)|] == d.(files := Sorting.Sort(Sorting.Before, d.files));
    }

    // The first KiCad design of a folder is the one its libraries go to.
    method NoteFolder(folder: string)
      requires Valid() && designs != []
      modifies `kicadDirs
      ensures Valid()
      ensures kicadDirs == if folder in old(kicadDirs) then old(kicadDirs) else old(kicadDirs)[folder := |designs| - 1]
    {
      if folder !in kicadDirs {
        kicadDirs := kicadDirs[folder := |designs| - 1];
      }
    }

    method KicadFiles(entry: string, extra: seq<string>) returns (listed: seq<string>, companions: seq<string>)
      requires SaneNames(w) && entry in files && |extra| <= 1
      requires forall f | f in extra :: Free(f) && w.ext(f) == ".kicad_pro"
      requires extra == [entry] || (Free(entry) && w.ext(entry) == ".kicad_sch")
      ensures entry in listed && forall f | f in extra :: f in listed
      ensures forall f | f in listed :: Free(f)
      ensures forall f | multiset(listed)[f] > 1 :: MayRepeat(w, files, f)
      ensures KicadLists(w, files, claimed, entry, extra, Design(w.dir(entry), entry, companions, [], listed, false))
      ensures extra == [entry] ==> listed == [entry, entry] && companions == []
    {
      listed, companions := extra, [];
      if w.ext(entry) == ".kicad_sch" {
        assert ".kicad_pcb" in VIEWS && extra != [entry];
        var sheets := FreeSheets(entry);
        RootIsReached(w.sheets, Files(files), entry);
        var pcb := w.sibling(entry, ".kicad_pcb");
        listed := listed + sheets;
        if Free(pcb) {
          companions := [pcb];
          listed := listed + [pcb];
        }
        assert extra + sheets + [] == extra + sheets;
        KicadRepeats(w, files, entry, extra, sheets, companions);
      } else {
        listed := listed + [entry];
        forall f | multiset([entry, entry])[f] > 1 ensures MayRepeat(w, files, f) {
          assert f in multiset([entry, entry]);
        }
      }
    }

    method FreeSheets(entry: string) returns (sheets: seq<string>)
      requires entry in files
      ensures Sorting.NoRepeats(sheets)
      ensures forall f :: f in sheets <==> Free(f) && Reaches(w.sheets, Files(files), entry, f)
    {
      var all := Closure(entry, w.sheets, Files(files));
      sheets := [];
      for i := 0 to |all|
        invariant Sorting.NoRepeats(sheets)
        invariant forall f :: f in sheets <==> Free(f) && f in all[..i]
      {
        assert all[..i + 1] == all[..i] + [all[i]];
        if Free(all[i]) {
          sheets := sheets + [all[i]];
        }
      }
      assert all[..|all|] == all;
    }

    method Kicad()
      requires Valid()
      modifies `claimed, `designs, `kicadDirs
      ensures Valid() && Grew(old(claimed), old(designs), claimed, designs)
      ensures forall f | f in files && w.ext(f) == ".kicad_pro" :: f in claimed
      ensures forall s | s in files && w.ext(s) == ".kicad_sch" && s !in claimed :: Named(w, files, s)
    {
      KicadProjects();
      KicadSheets();
    }

    method KicadProjects()
      requires Valid()
      modifies `claimed, `designs, `kicadDirs
      ensures Valid() && Grew(old(claimed), old(designs), claimed, designs)
      ensures forall f | f in files && w.ext(f) == ".kicad_pro" :: f in claimed
    {
      for i := 0 to |files|
        invariant Valid() && Grew(old(claimed), old(designs), claimed, designs)
        invariant forall j | 0 <= j < i && w.ext(files[j]) == ".kicad_pro" :: files[j] in claimed
      {
        var f := files[i];
        if w.ext(f) == ".kicad_pro" && Free(f) {
          assert ".kicad_sch" in VIEWS;
          var entry := w.sibling(f, ".kicad_sch");
          if !Free(entry) {
            entry := f;
          }
          KicadDesign(entry, [f]);
        }
      }
    }

    // A sheet left unclaimed is one another sheet reaches.
    method KicadSheets()
      requires Valid()
      modifies `claimed, `designs, `kicadDirs
      ensures Valid() && Grew(old(claimed), old(designs), claimed, designs)
      ensures forall s | s in files && w.ext(s) == ".kicad_sch" && s !in claimed :: Named(w, files, s)
    {
      var sheets, children := RootSheets();
      assert forall c | c in children :: Named(w, files, c);
      EachSheet(sheets, children);
      assert forall s | s in files && w.ext(s) == ".kicad_sch" && s !in claimed :: s in sheets && s in children;
    }

    method EachSheet(sheets: seq<string>, children: set<string>)
      requires Valid() && forall s | s in sheets :: s in files && w.ext(s) == ".kicad_sch"
      modifies `claimed, `designs, `kicadDirs
      ensures Valid() && Grew(old(claimed), old(designs), claimed, designs)
      ensures forall s | s in sheets && s !in children :: s in claimed
    {
      for i := 0 to |sheets|
        invariant Valid() && Grew(old(claimed), old(designs), claimed, designs)
        invariant forall j | 0 <= j < i && sheets[j] !in children :: sheets[j] in claimed
      {
        if sheets[i] !in children && Free(sheets[i]) {
          KicadDesign(sheets[i], []);
        }
      }
    }

    // The free sheets, and all that any of them reaches by at least one reference.
    method RootSheets() returns (sheets: seq<string>, children: set<string>)
      ensures forall s :: s in sheets <==> Free(s) && w.ext(s) == ".kicad_sch"
      ensures forall c :: c in children <==> exists s :: s in sheets && c != s && Reaches(w.sheets, Files(files), s, c)
    {
      sheets, children := [], {};
      for i := 0 to |files|
        invariant forall s :: s in sheets <==> Free(s) && w.ext(s) == ".kicad_sch" && s in files[..i]
      {
        assert files[..i + 1] == files[..i] + [files[i]];
        if w.ext(files[i]) == ".kicad_sch" && Free(files[i]) {
          sheets := sheets + [files[i]];
        }
      }
      assert files[..|files|] == files;
      for i := 0 to |sheets|
        invariant forall c :: c in children <==>
                    exists j :: 0 <= j < i && c != sheets[j] && Reaches(w.sheets, Files(files), sheets[j], c)
      {
        var kids := SheetsBelow(sheets[i]);
        children := children + kids;
      }
    }

    // What a sheet reaches beyond itself.
    method SheetsBelow(s: string) returns (kids: set<string>)
      ensures forall c :: c in kids <==> c != s && Reaches(w.sheets, Files(files), s, c)
    {
      var all := Closure(s, w.sheets, Files(files));
      RestOfList(all);
      kids := Files(all[1..]);
    }

    /* the other passes */

    // A job takes every free file under it.
    method OdbJobs()
      requires Valid()
      modifies `claimed, `designs
      ensures Valid() && Grew(old(claimed), old(designs), claimed, designs)
      ensures forall f | f in files && w.job(f).Some? :: f in claimed || AllUnder(files, claimed, JobAt(w, f))
      ensures forall i | |old(designs)| <= i < |designs| :: JobDesign(w, designs[i])
    {
      for i := 0 to |files|
        invariant Valid() && Grew(old(claimed), old(designs), claimed, designs)
        invariant forall j | 0 <= j < i && w.job(files[j]).Some? ::
                    files[j] in claimed || AllUnder(files, claimed, JobAt(w, files[j]))
        invariant forall j | |old(designs)| <= j < |designs| :: JobDesign(w, designs[j])
      {
        if Free(files[i]) && w.job(files[i]).Some? {
          OdbJob(files[i]);
        }
      }
    }

    method OdbJob(f: string)
      requires Valid() && Free(f) && w.job(f).Some?
      modifies `claimed, `designs
      ensures Valid() && Grew(old(claimed), old(designs), claimed, designs) && |designs| == |old(designs)| + 1
      ensures AllUnder(files, claimed, JobAt(w, f))
      ensures var d := designs[|old(designs)|];
              d.entry == f && JobDesign(w, d) && forall g :: g in d.files <==> old(Free(g)) && Under(JobAt(w, f), g)
    {
      var job := JobAt(w, f);
      var owned := FreeUnder(job);
      ghost var d := Design(w.dir(job), f, [], [], owned, false);
      SortedListsSame(d);
      Sorting.DistinctStays(owned, Sorting.Sort(Sorting.Before, owned));
      AddFree(Design(w.dir(job), f, [], [], owned, false));
    }

    // One design of each free file that places blocks and that no other such file places.
    method BlockDesigns()
      requires Valid()
      modifies `claimed, `designs
      ensures Valid() && Grew(old(claimed), old(designs), claimed, designs)
      ensures forall f | f in files && w.placesBlocks(f) && f !in claimed :: PlacedElsewhere(w, files, old(claimed), f)
      ensures forall i | |old(designs)| <= i < |designs| :: BlockDesign(w, files, old(claimed), designs[i])
    {
      var byLower, candidates := Candidates();
      var closures, placed := BlockClosures(candidates, byLower);
      PlacedMeansElsewhere(w, files, claimed, closures, candidates);
      EachBlock(candidates, closures, placed, claimed);
    }

    method EachBlock(candidates: seq<string>, closures: map<string, seq<string>>, placed: set<string>,
                     ghost first: set<string>)
      requires Valid() && first <= claimed
      requires forall f {:trigger Candidate(w, files, first, closures, placed, f)} | f in candidates ::
                 Candidate(w, files, first, closures, placed, f)
      modifies `claimed, `designs
      ensures Valid() && Grew(old(claimed), old(designs), claimed, designs)
      ensures forall f | f in candidates && f !in placed :: f in claimed
      ensures BlockDesigned(w, files, first, designs, |old(designs)|)
    {
      for i := 0 to |candidates|
        invariant Valid() && Grew(old(claimed), old(designs), claimed, designs)
        invariant forall j | 0 <= j < i && candidates[j] !in placed :: candidates[j] in claimed
        invariant BlockDesigned(w, files, first, designs, |old(designs)|)
      {
        assert Candidate(w, files, first, closures, placed, candidates[i]);
        NextBlock(candidates[i], closures, placed, first, |old(designs)|);
      }
    }

    method NextBlock(f: string, closures: map<string, seq<string>>, placed: set<string>, ghost first: set<string>,
                     ghost from: nat)
      requires Valid() && first <= claimed && from <= |designs| && BlockDesigned(w, files, first, designs, from)
      requires Candidate(w, files, first, closures, placed, f)
      modifies `claimed, `designs
      ensures Valid() && Grew(old(claimed), old(designs), claimed, designs)
      ensures f !in placed ==> f in claimed
      ensures BlockDesigned(w, files, first, designs, from)
    {
      if f !in placed && Free(f) {
        ghost var was := designs;
        RootIsReached(PlacedIn(w, Folded(w, files)), Files(files) - first, f);
        assert ReachesBlocks(w, files, first, f, f);
        AddBlocks(f, closures[f]);
        assert BlockDesign(w, files, first, designs[|was|]);
        BlockDesignedOnce(w, files, first, was, designs, from);
      }
    }

    method AddBlocks(f: string, all: seq<string>)
      requires Valid() && Free(f) && f in all && Sorting.NoRepeats(all)
      modifies `claimed, `designs
      ensures Valid() && Grew(old(claimed), old(designs), claimed, designs) && f in claimed
      ensures |designs| == |old(designs)| + 1
      ensures var d := designs[|old(designs)|];
              d.entry == f && d.folder == w.dir(f) && forall c :: c in d.files <==> c in all && old(Free(c))
    {
      var owned := FreeOf(all);
      SortedListsSame(Design(w.dir(f), f, [], [], owned, false));
      AddFree(Design(w.dir(f), f, [], [], owned, false));
    }

    // The files as folded names find them, the last of each, and the free files that place blocks.
    method Candidates() returns (byLower: map<string, string>, candidates: seq<string>)
      ensures byLower == Folded(w, files)
      ensures forall f :: f in candidates <==> Free(f) && w.placesBlocks(f)
    {
      byLower, candidates := map[], [];
      for i := 0 to |files|
        invariant byLower == Folded(w, files[..i])
        invariant forall f :: f in candidates <==> f in files[..i] && Free(f) && w.placesBlocks(f)
      {
        assert files[..i + 1] == files[..i] + [files[i]] && files[..i + 1][..i] == files[..i];
        byLower := byLower[w.lower(files[i]) := files[i]];
        if w.placesBlocks(files[i]) && Free(files[i]) {
          candidates := candidates + [files[i]];
        }
      }
      assert files[..|files|] == files;
    }

    // For each candidate exactly the free files it reaches by the blocks placed, and all that any of them reaches beyond
    // itself.
    method BlockClosures(candidates: seq<string>, byLower: map<string, string>)
      returns (closures: map<string, seq<string>>, placed: set<string>)
      requires byLower == Folded(w, files)
      ensures forall f :: f in closures <==> f in candidates
      ensures forall f | f in closures :: ExactClosure(w, files, claimed, f, closures[f])
      ensures forall c :: c in placed <==> PlacedBy(closures, c)
    {
      closures, placed := map[], {};
      for i := 0 to |candidates|
        invariant forall f :: f in closures <==> f in candidates[..i]
        invariant forall f | f in closures :: ExactClosure(w, files, claimed, f, closures[f])
        invariant forall c :: c in placed <==> PlacedBy(closures, c)
      {
        assert candidates[..i + 1] == candidates[..i] + [candidates[i]];
        var all := Closure(candidates[i], PlacedIn(w, byLower), Files(files) - claimed);
        PlacedByOneMore(closures, candidates[i], all);
        closures := closures[candidates[i] := all];
        placed := placed + Files(all[1..]);
      }
      assert candidates[..|candidates|] == candidates;
    }

    method FreeOf(all: seq<string>) returns (owned: seq<string>)
      requires Sorting.NoRepeats(all)
      ensures Sorting.NoRepeats(owned) && forall f :: f in owned <==> f in all && Free(f)
    {
      owned := [];
      for i := 0 to |all|
        invariant Sorting.NoRepeats(owned) && forall f :: f in owned <==> f in all[..i] && Free(f)
      {
        assert all[..i + 1] == all[..i] + [all[i]];
        if Free(all[i]) {
          owned := owned + [all[i]];
        }
      }
      assert all[..|all|] == all;
    }

    // Every file a reader opens that is left is a design of its own.
    method Loose()
      requires Valid()
      modifies `claimed, `designs
      ensures Valid() && Grew(old(claimed), old(designs), claimed, designs)
      ensures forall f | f in files && Readable(w, f) :: f in claimed
      ensures forall i | |old(designs)| <= i < |designs| :: LooseDesign(w, designs[i])
    {
      for i := 0 to |files|
        invariant Valid() && Grew(old(claimed), old(designs), claimed, designs)
        invariant forall j | 0 <= j < i && Readable(w, files[j]) :: files[j] in claimed
        invariant forall j | |old(designs)| <= j < |designs| :: LooseDesign(w, designs[j])
      {
        var f := files[i];
        if !Free(f) || w.ext(f) == ".kicad_pcb" || !w.readable(f) {
          continue;
        }
        if w.archive(f) && !w.archiveJob(f) {
          continue;
        }
        AddAlone(f);
      }
    }

    // Each library left goes to the KiCad design of its folder or the nearest one above.
    method Libraries()
      requires Valid()
      modifies `claimed, `designs
      ensures Valid() && old(claimed) <= claimed && Keeps(old(designs), designs)
      ensures forall f | f in files && Library(w, f) && f !in claimed :: NoneAbove(w, kicadDirs.Keys, w.dir(f))
    {
      for i := 0 to |files|
        invariant Valid() && old(claimed) <= claimed && Keeps(old(designs), designs)
        invariant forall j | 0 <= j < i && Library(w, files[j]) && files[j] !in claimed ::
                    NoneAbove(w, kicadDirs.Keys, w.dir(files[j]))
      {
        if Free(files[i]) && Library(w, files[i]) {
          ghost var was := designs;
          Shelve(files[i]);
          KeepsOn(old(designs), was, designs);
        }
      }
    }

    method Shelve(f: string)
      requires Valid() && Free(f)
      modifies `claimed, `designs
      ensures Valid() && old(claimed) <= claimed && Keeps(old(designs), designs)
      ensures f !in claimed ==> NoneAbove(w, kicadDirs.Keys, w.dir(f))
    {
      var d := w.dir(f);
      while true
        invariant Valid() && claimed == old(claimed) && designs == old(designs)
        invariant NoneAbove(w, kicadDirs.Keys, d) ==> NoneAbove(w, kicadDirs.Keys, w.dir(f))
        decreases |d|
      {
        if d in kicadDirs {
          Attach(f, kicadDirs[d]);
          return;
        }
        if d == "" {
          return;
        }
        d := w.dir(d);
      }
    }

    method Attach(f: string, i: nat)
      requires Valid() && Free(f) && i < |designs|
      modifies `claimed, `designs
      ensures Valid() && claimed == old(claimed) + {f} && Keeps(old(designs), designs)
      ensures |designs| == |old(designs)| && f in designs[i].files
    {
      var more := designs[i].(files := designs[i].files + [f]);
      SortedListsSame(more);
      var d := more.(files := Sorting.Sort(Sorting.Before, more.files));
      DesignExtended(w, files, claimed, designs, support, i, d, f);
      claimed := claimed + {f};
      designs := designs[i := d];
      ExtendingKeeps(old(designs), i, d);
    }

    // What no pass claimed is unread.
    method Leftovers()
      requires Valid() && unread == []
      modifies `unread
      ensures forall f :: f in unread <==> f in files && f !in claimed
    {
      for i := 0 to |files|
        invariant forall f :: f in unread <==> f in files[..i] && f !in claimed
      {
        assert files[..i + 1] == files[..i] + [files[i]];
        if Free(files[i]) {
          unread := unread + [files[i]];
        }
      }
      assert files[..|files|] == files;
    }

    // What the descriptors settle.
    method Declare()
      requires Valid() && claimed == {}
      modifies `claimed, `designs, `support, `projectDirs
      ensures Valid()
      ensures forall f | f in claimed :: InDeclared(designs, f) || f in support
      ensures forall f | f in files && w.base(f) == DESIGN_DESCRIPTOR ::
                DeclaredAt(designs, w.dir(f)) && AllUnder(files, claimed, w.dir(f))
      ensures forall f | f in files && w.base(f) == PROJECT_DESCRIPTOR :: f in claimed
    {
      Declared();
      Projects();
    }

    // What the passes propose of the rest.
    method Guess()
      requires Valid()
      modifies `claimed, `designs, `kicadDirs
      ensures Valid() && old(claimed) <= claimed && Keeps(old(designs), designs)
      ensures forall n | n in files && Netlist(w, n) && old(Free(n)) :: Proposed(designs, n)
      ensures forall f | f in files && Readable(w, f) :: f in claimed
    {
      Edif();
      PrefixKeeps(old(designs), designs);
      ghost var was := designs;
      Rest();
      KeepsFacts(was, designs);
      KeepsOn(old(designs), was, designs);
    }

    method Rest()
      requires Valid()
      modifies `claimed, `designs, `kicadDirs
      ensures Valid() && old(claimed) <= claimed && Keeps(old(designs), designs)
      ensures forall f | f in files && Readable(w, f) :: f in claimed
    {
      Kicad();
      OdbJobs();
      BlockDesigns();
      Loose();
      PrefixKeeps(old(designs), designs);
      ghost var was := designs;
      Libraries();
      KeepsOn(old(designs), was, designs);
    }

    // All the passes. Every file given ends in a design, in support or unread, and unread is exactly what no pass claimed.
    method Propose()
      requires Valid() && claimed == {} && unread == []
      modifies this
      ensures forall f :: f in unread <==> f in files && !Answered(designs, support, f)
      ensures forall f | Answered(designs, support, f) :: f in files
      ensures forall f | Count(designs, support, f) > 1 :: MayRepeat(w, files, f)
      ensures forall f | f in files && w.base(f) == DESIGN_DESCRIPTOR ::
                DeclaredAt(designs, w.dir(f)) && forall g | g in files && Under(w.dir(f), g) :: Answered(designs, support, g)
      ensures forall f | f in files && w.base(f) == PROJECT_DESCRIPTOR :: Answered(designs, support, f)
      ensures forall n | n in files && Netlist(w, n) :: Proposed(designs, n) || n in support || InDeclared(designs, n)
      ensures forall f | f in files && Readable(w, f) :: f !in unread
      ensures Sorting.Sorted(ByFolder(), designs)
    {
      Declare();
      ghost var c, d := claimed, designs;
      Guess();
      KeepsFacts(d, designs);
      assert forall n | n in files && Netlist(w, n) :: Proposed(designs, n) || n in support || InDeclared(designs, n);
      Leftovers();
      Order();
      ClaimedIsAnswered(w, files, claimed, designs, support);
    }

    method Order()
      requires Valid()
      modifies `designs
      ensures Accounted(w, files, claimed, designs, support)
      ensures Keeps(old(designs), designs) && Sorting.Sorted(ByFolder(), designs)
      ensures forall folder | DeclaredAt(old(designs), folder) :: DeclaredAt(designs, folder)
      ensures forall f | InDeclared(old(designs), f) :: InDeclared(designs, f)
      ensures forall n | Proposed(old(designs), n) :: Proposed(designs, n)
    {
      ghost var was := designs;
      designs := Sorting.Sort(ByFolder(), designs);
      FolderOrder();
      Sorting.SortSorts(ByFolder(), was);
      ListedSorts(was);
      SortingKeeps(was);
      KeepsFacts(was, designs);
      forall f ensures Count(designs, support, f) == Count(was, support, f) {
      }
    }
  }

  // A KiCad design beside what is claimed: what it is given, its entry, and for a sheet the free sheets it reaches and its
  // free board, which is its companion.
  ghost predicate KicadLists(w: World, files: seq<string>, claimed: set<string>, entry: string, extra: seq<string>,
                             d: Design)
  {
    var board := w.sibling(entry, ".kicad_pcb");
    var read := if w.ext(entry) == ".kicad_sch" && board in files && board !in claimed then [board] else [];
    && d.entry == entry && d.folder == w.dir(entry) && d.companions == read && d.revisions == [] && !d.declared
    && forall f :: f in d.files <==>
         f in extra || f == entry || f in read
         || (w.ext(entry) == ".kicad_sch" && f in files && f !in claimed && Reaches(w.sheets, Files(files), entry, f))
  }

  lemma SortedKicadLists(w: World, files: seq<string>, claimed: set<string>, entry: string, extra: seq<string>,
                         d: Design)
    requires KicadLists(w, files, claimed, entry, extra, d)
    ensures KicadLists(w, files, claimed, entry, extra, d.(files := Sorting.Sort(Sorting.Before, d.files)))
  {
    SortedListsSame(d);
  }

  predicate LooseDesign(w: World, d: Design) {
    Readable(w, d.entry) && d == Design(w.dir(d.entry), d.entry, [], [], [d.entry], false)
  }

  predicate KicadView(w: World, f: string) {
    |w.ext(f)| >= 6 && w.ext(f)[..6] == ".kicad"
  }

  // Another sheet of the folder's files reaches s.
  ghost predicate Named(w: World, files: seq<string>, s: string) {
    exists t :: t in files && w.ext(t) == ".kicad_sch" && t != s && Reaches(w.sheets, Files(files), t, s)
  }

  // The folder of the job a file enters.
  function JobAt(w: World, f: string): string
    requires w.job(f).Some?
  {
    if w.job(f).value == "." then "" else w.job(f).value
  }

  ghost predicate JobDesign(w: World, d: Design) {
    && w.job(d.entry).Some? && d.folder == w.dir(JobAt(w, d.entry)) && d.companions == [] && d.revisions == []
    && !d.declared && Sorting.NoRepeats(d.files) && forall g | g in d.files :: Under(JobAt(w, d.entry), g)
  }

  // A candidate that another one's closure holds.
  ghost predicate PlacedBy(closures: map<string, seq<string>>, c: string) {
    exists f :: f in closures && c != f && c in closures[f]
  }

  lemma PlacedByOneMore(closures: map<string, seq<string>>, f: string, all: seq<string>)
    requires all != [] && all[0] == f && Sorting.NoRepeats(all)
    requires f in closures ==> forall c :: c in closures[f] <==> c in all
    ensures forall c :: PlacedBy(closures[f := all], c) <==> PlacedBy(closures, c) || c in Files(all[1..])
  {
    RestOfList(all);
    forall c ensures PlacedBy(closures[f := all], c) <==> PlacedBy(closures, c) || c in Files(all[1..]) {
      if PlacedBy(closures, c) {
        var g :| g in closures && c != g && c in closures[g];
        assert g in closures[f := all] && c in closures[f := all][g];
      }
      if c in Files(all[1..]) {
        assert f in closures[f := all] && c in closures[f := all][f];
      }
    }
  }

  // What a file places of other files, matched without regard to case.
  function PlacedIn(w: World, byLower: map<string, string>): string -> seq<string> {
    f => Spelled(byLower, w.blocks(f))
  }

  // What a file reaches, beside what is claimed, by the blocks placed.
  ghost predicate ReachesBlocks(w: World, files: seq<string>, claimed: set<string>, g: string, f: string) {
    Reaches(PlacedIn(w, Folded(w, files)), Files(files) - claimed, g, f)
  }

  ghost predicate PlacesBlocks(w: World, files: seq<string>, claimed: set<string>, f: string) {
    f in files && f !in claimed && w.placesBlocks(f)
  }

  // Another free file that places blocks reaches f.
  ghost predicate PlacedElsewhere(w: World, files: seq<string>, claimed: set<string>, f: string) {
    exists g :: PlacesBlocks(w, files, claimed, g) && g != f && ReachesBlocks(w, files, claimed, g, f)
  }

  ghost predicate ExactClosure(w: World, files: seq<string>, claimed: set<string>, f: string, all: seq<string>) {
    Sorting.NoRepeats(all) && forall c :: c in all <==> ReachesBlocks(w, files, claimed, f, c)
  }

  lemma PlacedMeansElsewhere(w: World, files: seq<string>, claimed: set<string>, closures: map<string, seq<string>>,
                             candidates: seq<string>)
    requires forall f :: f in closures <==> f in candidates
    requires forall f :: f in candidates <==> PlacesBlocks(w, files, claimed, f)
    requires forall f | f in closures :: ExactClosure(w, files, claimed, f, closures[f])
    ensures forall c :: PlacedBy(closures, c) <==> PlacedElsewhere(w, files, claimed, c)
  {
    forall c ensures PlacedBy(closures, c) <==> PlacedElsewhere(w, files, claimed, c) {
      if PlacedBy(closures, c) {
        var f :| f in closures && c != f && c in closures[f];
        assert PlacesBlocks(w, files, claimed, f) && ReachesBlocks(w, files, claimed, f, c);
      }
      if PlacedElsewhere(w, files, claimed, c) {
        var g :| PlacesBlocks(w, files, claimed, g) && g != c && ReachesBlocks(w, files, claimed, g, c);
        assert g in closures && c in closures[g];
      }
    }
  }

  // The design of a file that no other places, of files it reaches.
  ghost predicate BlockDesign(w: World, files: seq<string>, claimed: set<string>, d: Design) {
    && PlacesBlocks(w, files, claimed, d.entry) && !PlacedElsewhere(w, files, claimed, d.entry)
    && d.folder == w.dir(d.entry) && forall c | c in d.files :: ReachesBlocks(w, files, claimed, d.entry, c)
  }

  // A file that may be the entry of a block design, with what it reaches; placed when another one reaches it.
  ghost predicate Candidate(w: World, files: seq<string>, claimed: set<string>, closures: map<string, seq<string>>,
                            placed: set<string>, f: string)
  {
    && PlacesBlocks(w, files, claimed, f) && f in closures && ExactClosure(w, files, claimed, f, closures[f])
    && (f in placed <==> PlacedElsewhere(w, files, claimed, f))
  }

  ghost predicate BlockDesigned(w: World, files: seq<string>, claimed: set<string>, ds: seq<Design>, from: nat) {
    forall i {:trigger BlockDesign(w, files, claimed, ds[i])} | from <= i < |ds| ::
      BlockDesign(w, files, claimed, ds[i])
  }

  lemma BlockDesignedOnce(w: World, files: seq<string>, claimed: set<string>, was: seq<Design>, ds: seq<Design>,
                          from: nat)
    requires was <= ds && |ds| == |was| + 1 && BlockDesigned(w, files, claimed, was, from)
    requires BlockDesign(w, files, claimed, ds[|was|])
    ensures BlockDesigned(w, files, claimed, ds, from)
  {
    forall i | from <= i < |ds| ensures BlockDesign(w, files, claimed, ds[i]) {
      if i < |was| {
        assert ds[i] == was[i] && BlockDesign(w, files, claimed, was[i]);
      }
    }
  }

  // The files by their folded names; of two that fold alike, the last.
  function Folded(w: World, files: seq<string>): map<string, string> {
    if files == [] then map[]
    else Folded(w, files[..|files| - 1])[w.lower(files[|files| - 1]) := files[|files| - 1]]
  }

  function Spelled(byLower: map<string, string>, refs: seq<string>): seq<string> {
    if refs == [] then []
    else if refs[0] in byLower then [byLower[refs[0]]] + Spelled(byLower, refs[1..])
    else Spelled(byLower, refs[1..])
  }

  // No folder from d up is one of dirs.
  ghost predicate NoneAbove(w: World, dirs: set<string>, d: string)
    requires SaneNames(w)
    decreases |d|
  {
    d !in dirs && (d == "" || NoneAbove(w, dirs, w.dir(d)))
  }

  lemma ExtendingKeeps(was: seq<Design>, i: nat, d: Design)
    requires i < |was| && Extends(d, was[i])
    ensures Keeps(was, was[i := d])
  {
    var now := was[i := d];
    forall e | e in was ensures exists x :: x in now && Extends(x, e) {
      var j :| 0 <= j < |was| && was[j] == e;
      assert now[j] in now && Extends(now[j], e);
    }
  }

  lemma SortingKeeps(was: seq<Design>)
    ensures Keeps(was, Sorting.Sort(ByFolder(), was))
  {
    Sorting.SortPermutes(ByFolder(), was);
    Sorting.SameMembers(was, Sorting.Sort(ByFolder(), was));
    forall d | d in was ensures exists e :: e in Sorting.Sort(ByFolder(), was) && Extends(e, d) {
      assert d in Sorting.Sort(ByFolder(), was) && Extends(d, d);
    }
  }

  lemma FolderOrder()
    ensures Sorting.StrictWeak(ByFolder())
  {
    Sorting.StringsAreOrdered();
  }

  // What the answer lists.
  ghost predicate Answered(designs: seq<Design>, support: seq<string>, f: string) {
    f in support || exists d :: d in designs && f in d.files
  }

  lemma ClaimedIsAnswered(w: World, files: seq<string>, claimed: set<string>, designs: seq<Design>, support: seq<string>)
    requires Accounted(w, files, claimed, designs, support)
    ensures forall f :: f in claimed <==> Answered(designs, support, f)
  {
    forall f ensures f in claimed <==> Answered(designs, support, f) {
      ListedSomewhere(designs, f);
      assert f in claimed <==> Count(designs, support, f) > 0;
      assert f in support <==> f in multiset(support);
    }
  }

  lemma DesignExtended(w: World, files: seq<string>, claimed: set<string>, designs: seq<Design>, support: seq<string>,
                       i: nat, d: Design, f: string)
    requires Accounted(w, files, claimed, designs, support) && i < |designs| && f in files && f !in claimed
    requires multiset(d.files) == multiset(designs[i].files) + multiset{f}
    ensures Accounted(w, files, claimed + {f}, designs[i := d], support)
  {
    ListedGrows(designs, i, d, f);
    forall g ensures Count(designs[i := d], support, g) == Count(designs, support, g) + if g == f then 1 else 0 {
      assert multiset{f}[g] == if g == f then 1 else 0;
    }
    assert f in Files(files);
    assert Count(designs, support, f) == 0;
    forall g ensures g in claimed + {f} <==> Count(designs[i := d], support, g) > 0 {
      assert g in claimed <==> Count(designs, support, g) > 0;
    }
    forall g | Count(designs[i := d], support, g) > 1 ensures MayRepeat(w, files, g) {
      assert Count(designs, support, g) > 1;
    }
  }

  ghost predicate Grew(claimed: set<string>, designs: seq<Design>, claimedNow: set<string>, designsNow: seq<Design>) {
    claimed <= claimedNow && designs <= designsNow
  }

  lemma RestOfList(all: seq<string>)
    requires all != [] && Sorting.NoRepeats(all)
    ensures forall c :: c in Files(all[1..]) <==> c in all && c != all[0]
  {
    forall c ensures c in all[1..] <==> c in all && c != all[0] {
      assert all == [all[0]] + all[1..];
      if c in all[1..] {
        var i :| 0 <= i < |all[1..]| && all[1..][i] == c;
        assert all[i + 1] == c;
      }
    }
  }

  lemma PairSorts(f: string)
    ensures Sorting.Sort(Sorting.Before, [f, f]) == [f, f]
  {
    Sorting.BeforeIsAsymmetric(f, f);
    assert [f, f][1..] == [f] && [f][1..] == [];
    assert Sorting.Sort(Sorting.Before, [f]) == [f];
  }

  // What a KiCad design's list may hold twice.
  lemma KicadRepeats(w: World, files: seq<string>, entry: string, extra: seq<string>, sheets: seq<string>,
                     companions: seq<string>)
    requires entry in files && |extra| <= 1 && |companions| <= 1 && Sorting.NoRepeats(sheets)
    requires forall f | f in extra :: w.ext(f) == ".kicad_pro"
    requires forall f | f in companions :: f == w.sibling(entry, ".kicad_pcb")
    requires forall f | f in sheets :: Reaches(w.sheets, Files(files), entry, f)
    requires w.ext(w.sibling(entry, ".kicad_pcb")) == ".kicad_pcb"
    ensures forall f | multiset(extra + sheets + companions)[f] > 1 :: MayRepeat(w, files, f)
  {
    forall f | multiset(extra + sheets + companions)[f] > 1 ensures MayRepeat(w, files, f) {
      Sorting.OccursOnce(sheets, f);
      Sorting.OccursOnce(companions, f);
      assert multiset(extra + sheets + companions) == multiset(extra) + multiset(sheets) + multiset(companions);
      if f !in extra {
        assert multiset(extra)[f] == 0;
        assert f in multiset(sheets) && f in multiset(companions);
        assert f in sheets && f in companions;
        assert BoardReadAsSheet(w, files, f);
      }
    }
  }

  ghost function RevisionEntries(revisions: seq<Revision>): set<string> {
    set r | r in revisions :: r.entry
  }

  // A design names n, as its entry or as a revision.
  ghost predicate Proposes(d: Design, n: string) {
    d.entry == n || n in RevisionEntries(d.revisions)
  }

  ghost predicate Proposed(designs: seq<Design>, n: string) {
    exists d :: d in designs && Proposes(d, n)
  }

  lemma ReachedIsPresent(names: string -> seq<string>, may: set<string>, root: string)
    requires root in may
    ensures forall f | Reaches(names, may, root, f) :: f in may
  {
    ClosedHoldsAll(names, may, root, may);
  }

  // What a pass claims as support.
  ghost predicate Supports(claimed: set<string>, support: seq<string>, claimedNow: set<string>, supportNow: seq<string>) {
    && claimed <= claimedNow && support <= supportNow
    && forall f | f in claimedNow :: f in claimed || f in supportNow
  }

  lemma SupportsOn(a: set<string>, s: seq<string>, b: set<string>, t: seq<string>, c: set<string>, u: seq<string>)
    requires Supports(a, s, b, t) && Supports(b, t, c, u)
    ensures Supports(a, s, c, u)
  {
    assert forall f | f in t :: f in u;
  }

  ghost predicate AllUnder(files: seq<string>, claimed: set<string>, folder: string) {
    forall g | g in files && Under(folder, g) :: g in claimed
  }

  ghost predicate DeclaredAt(designs: seq<Design>, folder: string) {
    exists d :: d in designs && d.declared && d.folder == folder
  }

  // A declared design lists f.
  ghost predicate InDeclared(designs: seq<Design>, f: string) {
    exists d :: d in designs && d.declared && f in d.files
  }

  // The same design, with at least the files it had.
  ghost predicate Extends(e: Design, d: Design) {
    e == d.(files := e.files) && forall f | f in d.files :: f in e.files
  }

  // Every design is still there, perhaps with more files.
  ghost predicate Keeps(was: seq<Design>, now: seq<Design>) {
    forall d | d in was :: exists e :: e in now && Extends(e, d)
  }

  lemma PrefixKeeps(was: seq<Design>, now: seq<Design>)
    requires was <= now
    ensures Keeps(was, now)
  {
    forall d | d in was ensures exists e :: e in now && Extends(e, d) {
      assert d in now && Extends(d, d);
    }
  }

  lemma KeepsOn(a: seq<Design>, b: seq<Design>, c: seq<Design>)
    requires Keeps(a, b) && Keeps(b, c)
    ensures Keeps(a, c)
  {
    forall d | d in a ensures exists e :: e in c && Extends(e, d) {
      var m :| m in b && Extends(m, d);
      var e :| e in c && Extends(e, m);
      assert Extends(e, d);
    }
  }

  // What is said of some design stays true as designs are added, given files and put in order.
  lemma KeepsFacts(was: seq<Design>, now: seq<Design>)
    requires Keeps(was, now)
    ensures forall folder | DeclaredAt(was, folder) :: DeclaredAt(now, folder)
    ensures forall f | InDeclared(was, f) :: InDeclared(now, f)
    ensures forall n | Proposed(was, n) :: Proposed(now, n)
  {
    forall folder | DeclaredAt(was, folder) ensures DeclaredAt(now, folder) {
      var d :| d in was && d.declared && d.folder == folder;
      var e :| e in now && Extends(e, d);
    }
    forall f | InDeclared(was, f) ensures InDeclared(now, f) {
      var d :| d in was && d.declared && f in d.files;
      var e :| e in now && Extends(e, d);
    }
    forall n | Proposed(was, n) ensures Proposed(now, n) {
      var d :| d in was && Proposes(d, n);
      var e :| e in now && Extends(e, d);
      assert Proposes(e, n);
    }
  }

}

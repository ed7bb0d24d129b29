// Which artifact each tier of a read comes from, by a design's declaration (service/project.go).
module Sources {
  import opened Paths

  datatype Revision = Revision(entry: string, companions: seq<string>)

  datatype Design = Design(uri: string, entry: string, companions: seq<string>, revisions: seq<Revision>)

  datatype Tiers = Tiers(netlist: string, board: string, geometry: string)

  datatype Resolution = Resolution(tiers: Tiers, namedIsTheDesign: bool, namedIsTheEntry: bool, fromDeclaration: bool)

  // What a file's format holds.
  datatype Formats = Formats(hasBoard: string -> bool, hasFaithful: string -> bool)

  /* ---- the operations ---- */

  // A tier still at the entry moves to the first companion that has it.
  function Supplied(entry: string, tier: string, companions: seq<string>, has: string -> bool): string
    decreases companions
  {
    if companions == [] then tier
    else Supplied(entry, if tier == entry && has(companions[0]) then companions[0] else tier, companions[1..], has)
  }

  function SourcesOf(w: Formats, d: Design, named: string): Tiers {
    var board := if named != "" && w.hasBoard(named) then named else d.entry;
    var geometry := if named != "" && w.hasFaithful(named) then named else d.entry;
    Tiers(d.entry, Supplied(d.entry, board, d.companions, w.hasBoard),
          Supplied(d.entry, geometry, d.companions, w.hasFaithful))
  }

  method SourcesFor(w: Formats, d: Design, named: string) returns (s: Tiers)
    ensures s == SourcesOf(w, d, named)
  {
    s := Tiers(d.entry, d.entry, d.entry);
    if named != "" {
      if w.hasBoard(named) {
        s := s.(board := named);
      }
      if w.hasFaithful(named) {
        s := s.(geometry := named);
      }
    }
    for i := 0 to |d.companions|
      invariant s.netlist == d.entry
      invariant Supplied(d.entry, s.board, d.companions[i..], w.hasBoard) == SourcesOf(w, d, named).board
      invariant Supplied(d.entry, s.geometry, d.companions[i..], w.hasFaithful) == SourcesOf(w, d, named).geometry
    {
      var c := d.companions[i];
      assert d.companions[i..][0] == c && d.companions[i..][1..] == d.companions[i + 1..];
      if s.board == d.entry && w.hasBoard(c) {
        s := s.(board := c);
      }
      if s.geometry == d.entry && w.hasFaithful(c) {
        s := s.(geometry := c);
      }
    }
  }

  function RevisionIn(d: Design, revisions: seq<Revision>, ref: string): Option<Design> {
    if revisions == [] then None
    else
      var rev := revisions[0];
      if rev.entry == ref || ref in rev.companions then Some(Design(d.uri, rev.entry, rev.companions, []))
      else RevisionIn(d, revisions[1..], ref)
  }

  // The declared revision a ref belongs to, shaped as a design.
  function RevisionOf(d: Design, ref: string): Option<Design> {
    RevisionIn(d, d.revisions, ref)
  }

  function ResolveSources(w: Formats, declared: Option<Design>, ref: string, isDir: bool, asNamed: bool): Resolution {
    var plain := Resolution(Tiers(ref, ref, ref), false, false, false);
    if declared.None? then plain
    else
      var whole := declared.value;
      var d := if !isDir && RevisionOf(whole, ref).Some? then RevisionOf(whole, ref).value else whole;
      var theDesign, theEntry := isDir && ref == d.uri, !isDir && ref == d.entry;
      if !theDesign && (asNamed || !(theEntry || ref in d.companions)) then plain
      else Resolution(SourcesOf(w, d, if theDesign || theEntry then "" else ref), theDesign, theEntry, true)
  }

  /* ---- what a tier reads ---- */

  // The first companion, other than the entry, that has a tier; or the entry.
  function FirstWith(entry: string, companions: seq<string>, has: string -> bool): string {
    if companions == [] then entry
    else if companions[0] != entry && has(companions[0]) then companions[0]
    else FirstWith(entry, companions[1..], has)
  }

  lemma {:induction false} MovedTierStays(entry: string, tier: string, companions: seq<string>, has: string -> bool)
    requires tier != entry
    ensures Supplied(entry, tier, companions, has) == tier
  {
    if companions != [] {
      MovedTierStays(entry, tier, companions[1..], has);
    }
  }

  lemma {:induction false} EntryTierIsFirstWith(entry: string, companions: seq<string>, has: string -> bool)
    ensures Supplied(entry, entry, companions, has) == FirstWith(entry, companions, has)
  {
    if companions != [] {
      if companions[0] != entry && has(companions[0]) {
        MovedTierStays(entry, companions[0], companions[1..], has);
      } else {
        EntryTierIsFirstWith(entry, companions[1..], has);
      }
    }
  }

  // The netlist is always the entry's. A named companion that has a tier supplies it; otherwise the first companion that
  // does, or else the entry. No two companions are ever mixed in one tier, and no tier leaves the declaration.
  lemma TiersOf(w: Formats, d: Design, named: string)
    ensures SourcesOf(w, d, named) == Tiers(d.entry,
              if named != "" && named != d.entry && w.hasBoard(named) then named
              else FirstWith(d.entry, d.companions, w.hasBoard),
              if named != "" && named != d.entry && w.hasFaithful(named) then named
              else FirstWith(d.entry, d.companions, w.hasFaithful))
  {
    EntryTierIsFirstWith(d.entry, d.companions, w.hasBoard);
    EntryTierIsFirstWith(d.entry, d.companions, w.hasFaithful);
    if named != d.entry {
      MovedTierStays(d.entry, named, d.companions, w.hasBoard);
      MovedTierStays(d.entry, named, d.companions, w.hasFaithful);
    }
  }

  lemma {:induction false} FirstWithIsDeclared(entry: string, companions: seq<string>, has: string -> bool)
    ensures var t := FirstWith(entry, companions, has);
            t == entry || (t in companions && has(t))
    ensures FirstWith(entry, companions, has) == entry ==> forall c | c in companions :: c == entry || !has(c)
  {
    if companions != [] {
      FirstWithIsDeclared(entry, companions[1..], has);
    }
  }

  /* ---- resolving again ---- */

  ghost predicate Owns(entry: string, companions: seq<string>, f: string) {
    f == entry || f in companions
  }

  // No file belongs to the design and a revision, or to two revisions; and no file is nameless.
  ghost predicate Separate(d: Design) {
    && !Owns(d.entry, d.companions, "")
    && (forall r, f | r in d.revisions && Owns(r.entry, r.companions, f) :: f != "" && !Owns(d.entry, d.companions, f))
    && (forall i, j, f | 0 <= i < j < |d.revisions| && Owns(d.revisions[i].entry, d.revisions[i].companions, f) ::
          !Owns(d.revisions[j].entry, d.revisions[j].companions, f))
  }

  lemma {:induction false} NotOfARevision(d: Design, revisions: seq<Revision>, f: string)
    requires forall r | r in revisions :: !Owns(r.entry, r.companions, f)
    ensures RevisionIn(d, revisions, f) == None
  {
    if revisions != [] {
      assert revisions[0] in revisions;
      NotOfARevision(d, revisions[1..], f);
    }
  }

  lemma {:induction false} OfItsRevision(d: Design, revisions: seq<Revision>, k: nat, f: string)
    requires k < |revisions| && Owns(revisions[k].entry, revisions[k].companions, f)
    requires forall i | 0 <= i < k :: !Owns(revisions[i].entry, revisions[i].companions, f)
    ensures RevisionIn(d, revisions, f) == Some(Design(d.uri, revisions[k].entry, revisions[k].companions, []))
  {
    if k > 0 {
      OfItsRevision(d, revisions[1..], k - 1, f);
    }
  }

  lemma {:induction false} RevisionFound(d: Design, revisions: seq<Revision>, f: string) returns (k: nat)
    requires RevisionIn(d, revisions, f).Some?
    ensures k < |revisions| && Owns(revisions[k].entry, revisions[k].companions, f)
    ensures RevisionIn(d, revisions, f) == Some(Design(d.uri, revisions[k].entry, revisions[k].companions, []))
  {
    if revisions[0].entry == f || f in revisions[0].companions {
      k := 0;
    } else {
      k := RevisionFound(d, revisions[1..], f);
      k := k + 1;
    }
  }

  // Every file of the design, or of one revision, resolves against that one.
  ghost predicate Against(whole: Design, d: Design) {
    forall f | Owns(d.entry, d.companions, f) ::
      f != "" && d == if RevisionOf(whole, f).Some? then RevisionOf(whole, f).value else whole
  }

  lemma SeparateResolves(whole: Design, ref: string)
    requires Separate(whole)
    ensures Against(whole, if RevisionOf(whole, ref).Some? then RevisionOf(whole, ref).value else whole)
  {
    match RevisionOf(whole, ref)
    case None =>
      forall f | Owns(whole.entry, whole.companions, f) ensures f != "" && RevisionOf(whole, f) == None {
        NotOfARevision(whole, whole.revisions, f);
      }
    case Some(d) =>
      var k := RevisionFound(whole, whole.revisions, ref);
      var rev := whole.revisions[k];
      assert rev in whole.revisions;
      forall f | Owns(d.entry, d.companions, f) ensures f != "" && RevisionOf(whole, f) == Some(d) {
        OfItsRevision(whole, whole.revisions, k, f);
      }
  }

  lemma WholeResolves(whole: Design)
    requires Separate(whole)
    ensures Against(whole, whole)
  {
    forall f | Owns(whole.entry, whole.companions, f) ensures f != "" && RevisionOf(whole, f) == None {
      NotOfARevision(whole, whole.revisions, f);
    }
  }

  // Resolving a file of d resolves d's declaration, with the file pinned to the tiers it has unless it is the entry.
  lemma ResolvesAgainst(w: Formats, whole: Design, d: Design, f: string)
    requires Against(whole, d) && Owns(d.entry, d.companions, f)
    ensures ResolveSources(w, Some(whole), f, false, false).tiers == SourcesOf(w, d, if f == d.entry then "" else f)
    ensures ResolveSources(w, Some(whole), f, false, false).fromDeclaration
  {
  }

  lemma TiersResolveAgain(w: Formats, whole: Design, d: Design, named: string)
    requires Against(whole, d)
    requires named == "" || named in d.companions
    ensures var t := SourcesOf(w, d, named);
            && ResolveSources(w, Some(whole), t.netlist, false, false).tiers.netlist == t.netlist
            && ResolveSources(w, Some(whole), t.board, false, false).tiers.board == t.board
            && ResolveSources(w, Some(whole), t.geometry, false, false).tiers.geometry == t.geometry
  {
    var t := SourcesOf(w, d, named);
    TiersOf(w, d, named);
    FirstWithIsDeclared(d.entry, d.companions, w.hasBoard);
    FirstWithIsDeclared(d.entry, d.companions, w.hasFaithful);
    ResolvesAgainst(w, whole, d, t.netlist);
    ResolvesAgainst(w, whole, d, t.board);
    ResolvesAgainst(w, whole, d, t.geometry);
    TiersOf(w, d, "");
    TiersOf(w, d, t.board);
    TiersOf(w, d, t.geometry);
  }

  // Whatever a ref resolved to, each tier's artifact, named on its own, resolves to itself for that tier.
  lemma ResolvingAgainAgrees(w: Formats, whole: Design, ref: string, isDir: bool)
    requires Separate(whole)
    ensures var r := ResolveSources(w, Some(whole), ref, isDir, false);
            r.fromDeclaration || !isDir ==>
              && ResolveSources(w, Some(whole), r.tiers.netlist, false, false).tiers.netlist == r.tiers.netlist
              && ResolveSources(w, Some(whole), r.tiers.board, false, false).tiers.board == r.tiers.board
              && ResolveSources(w, Some(whole), r.tiers.geometry, false, false).tiers.geometry == r.tiers.geometry
  {
    var r := ResolveSources(w, Some(whole), ref, isDir, false);
    SeparateResolves(whole, ref);
    WholeResolves(whole);
    var d := if !isDir && RevisionOf(whole, ref).Some? then RevisionOf(whole, ref).value else whole;
    if r.fromDeclaration {
      TiersResolveAgain(w, whole, d, if r.namedIsTheDesign || r.namedIsTheEntry then "" else ref);
    }
  }

  // The folder, the entry and every companion name one netlist.
  lemma EverySpellingIsOneNetlist(w: Formats, whole: Design, f: string)
    requires Separate(whole) && Owns(whole.entry, whole.companions, f)
    ensures ResolveSources(w, Some(whole), whole.uri, true, false).tiers.netlist == whole.entry
    ensures ResolveSources(w, Some(whole), f, false, false).tiers.netlist == whole.entry
  {
    WholeResolves(whole);
    ResolvesAgainst(w, whole, whole, f);
  }

  /* ---- where files are shared ---- */

  // The declaration a file resolves against.
  function Home(whole: Design, f: string): Design {
    match RevisionOf(whole, f)
    case None => whole
    case Some(d) => d
  }

  // Without any condition on what is shared, a file of the design names the whole design's netlist exactly when it is in no
  // revision, or the first revision it is in has the design's own entry.
  lemma SpellingNamesTheNetlist(w: Formats, whole: Design, f: string)
    requires Owns(whole.entry, whole.companions, f)
    ensures ResolveSources(w, Some(whole), f, false, false).tiers.netlist == whole.entry <==>
              RevisionOf(whole, f).None? || RevisionOf(whole, f).value.entry == whole.entry
  {
    if RevisionOf(whole, f).Some? {
      var k := RevisionFound(whole, whole.revisions, f);
    }
  }

  // So sharing a file breaks it: a board that the design and its revision both declare resolves against the revision, and
  // reads the revision's netlist.
  lemma SharedBoardMovesTheNetlist(w: Formats, entry: string, board: string, other: string)
    requires entry != board && other != board && entry != other
    ensures var d := Design("", entry, [board], [Revision(other, [board])]);
            ResolveSources(w, Some(d), board, false, false).tiers.netlist == other
  {
    var d := Design("", entry, [board], [Revision(other, [board])]);
    OfItsRevision(d, d.revisions, 0, board);
  }

  // No file is nameless.
  ghost predicate Named(whole: Design) {
    && !Owns(whole.entry, whole.companions, "")
    && forall r | r in whole.revisions :: !Owns(r.entry, r.companions, "")
  }

  // A file of the declaration d, which some ref resolved against, is a file of the declaration it resolves against itself.
  lemma FileIsAtHome(whole: Design, ref: string, d: Design, f: string)
    requires Named(whole) && (d == whole || d == Home(whole, ref)) && Owns(d.entry, d.companions, f)
    ensures f != "" && Owns(Home(whole, f).entry, Home(whole, f).companions, f)
  {
    if d != whole {
      var k := RevisionFound(whole, whole.revisions, ref);
      assert whole.revisions[k] in whole.revisions;
      FoundIfOwned(whole, whole.revisions, k, f);
    }
    if RevisionOf(whole, f).Some? {
      var k := RevisionFound(whole, whole.revisions, f);
      assert whole.revisions[k] in whole.revisions;
    }
  }

  lemma {:induction false} FoundIfOwned(d: Design, revisions: seq<Revision>, k: nat, f: string)
    requires k < |revisions| && Owns(revisions[k].entry, revisions[k].companions, f)
    ensures RevisionIn(d, revisions, f).Some?
  {
    if k > 0 {
      FoundIfOwned(d, revisions[1..], k - 1, f);
    }
  }

  // A file supplies a tier where it resolves: as a companion that has it, or as an entry none of whose companions has it.
  ghost predicate Supplies(d: Design, f: string, has: string -> bool) {
    if f == d.entry then FirstWith(d.entry, d.companions, has) == d.entry else has(f)
  }

  lemma TierAtHome(w: Formats, whole: Design, f: string)
    requires f != "" && Owns(Home(whole, f).entry, Home(whole, f).companions, f)
    ensures var again := ResolveSources(w, Some(whole), f, false, false).tiers;
            && (again.netlist == f <==> f == Home(whole, f).entry)
            && (again.board == f <==> Supplies(Home(whole, f), f, w.hasBoard))
            && (again.geometry == f <==> Supplies(Home(whole, f), f, w.hasFaithful))
  {
    var d := Home(whole, f);
    assert ResolveSources(w, Some(whole), f, false, false).tiers == SourcesOf(w, d, if f == d.entry then "" else f);
    TiersOf(w, d, if f == d.entry then "" else f);
    FirstWithIsDeclared(d.entry, d.companions, w.hasBoard);
    FirstWithIsDeclared(d.entry, d.companions, w.hasFaithful);
  }

  lemma TiersAreOwned(w: Formats, d: Design, named: string)
    requires named == "" || named in d.companions
    ensures var t := SourcesOf(w, d, named);
            && Owns(d.entry, d.companions, t.netlist) && Owns(d.entry, d.companions, t.board)
            && Owns(d.entry, d.companions, t.geometry)
  {
    TiersOf(w, d, named);
    FirstWithIsDeclared(d.entry, d.companions, w.hasBoard);
    FirstWithIsDeclared(d.entry, d.companions, w.hasFaithful);
  }

  // Whatever is shared, a tier's artifact resolves to itself for its tier exactly when it supplies that tier where it
  // resolves: a netlist that is the entry there, and a board or a geometry as above.
  lemma ResolvingAgainIsExact(w: Formats, whole: Design, ref: string, isDir: bool)
    requires Named(whole) && ResolveSources(w, Some(whole), ref, isDir, false).fromDeclaration
    ensures var t := ResolveSources(w, Some(whole), ref, isDir, false).tiers;
            && (ResolveSources(w, Some(whole), t.netlist, false, false).tiers.netlist == t.netlist <==>
                  t.netlist == Home(whole, t.netlist).entry)
            && (ResolveSources(w, Some(whole), t.board, false, false).tiers.board == t.board <==>
                  Supplies(Home(whole, t.board), t.board, w.hasBoard))
            && (ResolveSources(w, Some(whole), t.geometry, false, false).tiers.geometry == t.geometry <==>
                  Supplies(Home(whole, t.geometry), t.geometry, w.hasFaithful))
  {
    var r := ResolveSources(w, Some(whole), ref, isDir, false);
    var d := if isDir then whole else Home(whole, ref);
    var named := if r.namedIsTheDesign || r.namedIsTheEntry then "" else ref;
    assert r.tiers == SourcesOf(w, d, named);
    TiersAreOwned(w, d, named);
    FileIsAtHome(whole, ref, d, r.tiers.netlist);
    FileIsAtHome(whole, ref, d, r.tiers.board);
    FileIsAtHome(whole, ref, d, r.tiers.geometry);
    TierAtHome(w, whole, r.tiers.netlist);
    TierAtHome(w, whole, r.tiers.board);
    TierAtHome(w, whole, r.tiers.geometry);
  }
}

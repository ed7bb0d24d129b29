// Artifact URIs: the one name of a stored artifact, and the containment boundary every client-supplied path crosses
// (artifact/uri.go, mounts/mounts.go).
module ArtifactUri {
  import opened Paths

  datatype Refusal =
    | NoPrefix | OtherScheme(scheme: string)
    | NoMount | MountHasSeparator
    | AbsolutePath | EscapesMount
    | NoSuchMount | EscapesRoot

  datatype Result<T> = Ok(value: T) | Err(why: Refusal)

  // A mount name, and a slash-separated path within the mount; the mount root is the empty path.
  datatype URI = URI(mount: string, path: string)

  const PREFIX := "mount://"

  /* ---- the operations ---- */

  function Slashed(p: string): string {
    seq(|p|, i requires 0 <= i < |p| => if p[i] == '\\' then '/' else p[i])
  }

  predicate HasPrefix(s: string, p: string) {
    |s| >= |p| && s[..|p|] == p
  }

  function TrimPrefix(s: string, p: string): string {
    if HasPrefix(s, p) then s[|p|..] else s
  }

  function CleanPath(p: string): Result<string> {
    var q := Trim(Slashed(p));
    if HasPrefix(q, "/") then Err(AbsolutePath)
    else if q == "" then Ok("")
    else
      var clean := Clean(q);
      if clean == "." || clean == "/" then Ok("")
      else if clean == ".." || HasPrefix(clean, "../") then Err(EscapesMount)
      else Ok(TrimPrefix(clean, "./"))
  }

  function New(mount: string, p: string): Result<URI> {
    if mount == "" then Err(NoMount)
    else if '/' in mount || '\\' in mount then Err(MountHasSeparator)
    else
      match CleanPath(p)
      case Err(why) => Err(why)
      case Ok(clean) => Ok(URI(mount, clean))
  }

  // Where sep first occurs in s, at or after i.
  function Find(s: string, sep: string, i: nat): (at: Option<nat>)
    requires i <= |s|
    ensures at.Some? ==> i <= at.value && at.value + |sep| <= |s| && s[at.value..][..|sep|] == sep
    decreases |s| - i
  {
    if HasPrefix(s[i..], sep) then Some(i)
    else if i == |s| then None
    else Find(s, sep, i + 1)
  }

  // The text before the first sep, and after it, when there is one.
  function Cut(s: string, sep: string): Option<(string, string)> {
    match Find(s, sep, 0)
    case None => None
    case Some(at) => Some((s[..at], s[at + |sep|..]))
  }

  function Parse(s: string): Result<URI> {
    if !HasPrefix(s, PREFIX) then
      match Cut(s, "://")
      case Some(parts) => Err(OtherScheme(parts.0))
      case None => Err(NoPrefix)
    else
      var rest := s[|PREFIX|..];
      match Cut(rest, "/")
      case Some(parts) => New(parts.0, parts.1)
      case None => New(rest, "")
  }

  function Text(u: URI): string {
    if u.path == "" then PREFIX + u.mount else PREFIX + u.mount + "/" + u.path
  }

  // The path of the directory holding u, as Go's path.Dir reads a clean relative path.
  function Dir(u: URI): URI {
    if u.path == "" then u
    else
      var elems := Split(u.path);
      var d := Clean(Join(elems[..|elems| - 1]));
      URI(u.mount, if d == "." then "" else d)
  }

  function Resolve(u: URI, rel: string): Result<URI> {
    if HasPrefix(rel, PREFIX) then Parse(rel)
    else if HasPrefix(rel, "/") then New(u.mount, TrimPrefix(rel, "/"))
    else New(u.mount, JoinClean(Dir(u).path, rel))
  }

  function NonEmpty(elems: seq<string>): seq<string> {
    if elems == [] then []
    else if elems[0] == "" then NonEmpty(elems[1..])
    else [elems[0]] + NonEmpty(elems[1..])
  }

  // Cleaning an absolute path: a step up from the root stays there.
  function ReduceRooted(kept: seq<string>, elems: seq<string>): seq<string>
    decreases |elems|
  {
    if elems == [] then kept
    else
      var e := elems[0];
      var next :=
        if e == "" || e == "." then kept
        else if e != ".." then kept + [e]
        else if kept != [] then kept[..|kept| - 1]
        else kept;
      ReduceRooted(next, elems[1..])
  }

  // Lexical cleaning of any path: one that opens with a slash stays absolute.
  function CleanAny(p: string): string {
    if HasPrefix(p, "/") then "/" + Join(ReduceRooted([], Split(p))) else Clean(p)
  }

  // What Go's path.Join puts together before it cleans.
  function Joined(u: URI, elems: seq<string>): string {
    Join(NonEmpty([u.path] + elems))
  }

  // The URI of something below u, named by elements joined as Go's path.Join joins them.
  function Below(u: URI, elems: seq<string>): Result<URI> {
    New(u.mount, if NonEmpty([u.path] + elems) == [] then "" else CleanAny(Joined(u, elems)))
  }

  /* ---- containment ---- */

  // A path whose every element names something inside the mount: nothing empty, nothing that stands still or climbs,
  // no leading slash and no other separator.
  predicate Contained(p: string) {
    p == "" || (AllPlain(Split(p)) && '\\' !in p)
  }

  predicate GoodMount(mount: string) {
    mount != "" && '/' !in mount && '\\' !in mount
  }

  // Cleaning a path is walking it from the mount root: refused when it is absolute or when some step leaves the root,
  // and otherwise the directory the walk ends in. A path that comes back down after climbing out is refused too.
  lemma CleanPathIsAWalk(p: string)
    ensures var q := Trim(Slashed(p));
            CleanPath(p) ==
              if HasPrefix(q, "/") then Err(AbsolutePath)
              else match Walk([], Split(q))
                case None => Err(EscapesMount)
                case Some(w) => Ok(Join(w))
  {
    var q := Trim(Slashed(p));
    CleanIsWalk(q);
    match Walk([], Split(q)) {
      case None =>
      case Some(w) =>
        if w != [] {
          SplitJoin(w);
          PlainTextStaysPut(w);
        }
    }
  }

  lemma OpeningElement(t: string, e: string)
    requires '/' !in e && HasPrefix(t, e + "/")
    ensures Split(t)[0] == e
  {
    assert t == e + "/" + t[|e| + 1..];
    SplitAppends(e, t[|e| + 1..]);
    SplitWhole(e);
  }

  // Text made of plain elements reads as none of the special cases cleaning tests for.
  lemma PlainTextStaysPut(w: seq<string>)
    requires w != [] && AllPlain(w)
    ensures var t := Join(w);
            && t != "" && t != "." && t != "/" && t != ".."
            && !HasPrefix(t, "../") && !HasPrefix(t, "./") && !HasPrefix(t, "/")
  {
    var t := Join(w);
    assert Plain(w[0]);
    SplitJoin(w);
    SplitWhole(".");
    SplitWhole("..");
    forall e | e in ["", ".", ".."] && HasPrefix(t, e + "/")
      ensures Split(t)[0] == e
    {
      OpeningElement(t, e);
    }
    assert "" + "/" == "/" && "" in ["", ".", ".."];
    assert "." + "/" == "./" && "." in ["", ".", ".."];
    assert ".." + "/" == "../" && ".." in ["", ".", ".."];
  }

  lemma {:induction false} SplitKeepsOut(s: string, c: char)
    requires c !in s
    ensures forall e | e in Split(s) :: c !in e
  {
    if s != "" {
      SplitKeepsOut(s[1..], c);
    }
  }

  lemma {:induction false} JoinKeepsOut(parts: seq<string>, c: char)
    requires c != '/' && forall e | e in parts :: c !in e
    ensures c !in Join(parts)
    decreases |parts|
  {
    if |parts| > 1 {
      JoinKeepsOut(parts[1..], c);
    }
  }

  lemma {:induction false} WalkKeepsOut(at: seq<string>, elems: seq<string>, c: char)
    requires forall e | e in at + elems :: c !in e
    ensures Walk(at, elems).Some? ==> forall e | e in Walk(at, elems).value :: c !in e
    decreases |elems|
  {
    if elems == [] {
      assert at + elems == at;
    } else if elems[0] == "" || elems[0] == "." {
      WalkKeepsOut(at, elems[1..], c);
    } else if elems[0] != ".." {
      WalkKeepsOut(at + [elems[0]], elems[1..], c);
    } else if at != [] {
      WalkKeepsOut(at[..|at| - 1], elems[1..], c);
    }
  }

  // No path the boundary hands out climbs, is absolute, or carries another separator, whatever was asked for.
  lemma NewIsContained(mount: string, p: string)
    ensures New(mount, p).Ok? ==>
              var u := New(mount, p).value;
              u.mount == mount && GoodMount(u.mount) && Contained(u.path)
  {
    if New(mount, p).Ok? {
      var q := Trim(Slashed(p));
      CleanPathIsAWalk(p);
      WalkStaysPlain([], Split(q));
      TrimKeeps(Slashed(p));
      assert '\\' !in Slashed(p);
      SplitKeepsOut(q, '\\');
      WalkKeepsOut([], Split(q), '\\');
      var w := Walk([], Split(q)).value;
      JoinKeepsOut(w, '\\');
      if w != [] {
        SplitJoin(w);
      }
    }
  }

  lemma ParsedIsContained(s: string)
    ensures Parse(s).Ok? ==> GoodMount(Parse(s).value.mount) && Contained(Parse(s).value.path)
  {
    if HasPrefix(s, PREFIX) {
      var rest := s[|PREFIX|..];
      NewIsContained(rest, "");
      match Cut(rest, "/")
      case Some(parts) => NewIsContained(parts.0, parts.1);
      case None =>
    }
  }

  lemma BelowIsContained(u: URI, elems: seq<string>)
    ensures Below(u, elems).Ok? ==>
              var r := Below(u, elems).value;
              r.mount == u.mount && GoodMount(r.mount) && Contained(r.path)
  {
    NewIsContained(u.mount, if NonEmpty([u.path] + elems) == [] then "" else CleanAny(Joined(u, elems)));
  }

  lemma ResolvedIsContained(u: URI, rel: string)
    ensures Resolve(u, rel).Ok? ==>
              var r := Resolve(u, rel).value;
              && GoodMount(r.mount) && Contained(r.path)
              && (r.mount == u.mount || HasPrefix(rel, PREFIX))
  {
    ParsedIsContained(rel);
    NewIsContained(u.mount, TrimPrefix(rel, "/"));
    NewIsContained(u.mount, JoinClean(Dir(u).path, rel));
  }

  /* ---- the round trip ---- */

  lemma SlashedAlone(p: string)
    requires '\\' !in p
    ensures Slashed(p) == p
  {
  }

  lemma ContainedCleansToItself(p: string)
    requires Contained(p) && Snug(p)
    ensures CleanPath(p) == Ok(p)
  {
    SlashedAlone(p);
    TrimKeeps(p);
    CleanPathIsAWalk(p);
    if p != "" {
      WalkPlain([], Split(p));
      JoinSplit(p);
      PlainTextStaysPut(Split(p));
      assert [] + Split(p) == Split(p);
    } else {
      assert Walk([], [""]) == Some([]);
    }
  }

  // Cleaning that changes nothing had nothing to trim: it never makes a path longer.
  lemma CleanedToItselfIsSnug(p: string)
    requires CleanPath(p) == Ok(p)
    ensures Snug(p)
  {
    var q := Trim(Slashed(p));
    CleanPathIsAWalk(p);
    ReduceIsWalk([], Split(q));
    ReduceIsNoLonger(q);
    TrimKeeps(Slashed(p));
  }

  lemma {:induction false} FindFirst(s: string, sep: string, i: nat, at: nat)
    requires i <= at <= |s| && HasPrefix(s[at..], sep)
    requires forall j | i <= j < at :: !HasPrefix(s[j..], sep)
    ensures Find(s, sep, i) == Some(at)
    decreases at - i
  {
    if i < at {
      FindFirst(s, sep, i + 1, at);
    }
  }

  lemma {:induction false} FindNothing(s: string, sep: string, i: nat)
    requires i <= |s| && sep != "" && forall j | i <= j < |s| :: !HasPrefix(s[j..], sep)
    ensures Find(s, sep, i) == None
    decreases |s| - i
  {
    if i < |s| {
      FindNothing(s, sep, i + 1);
    }
  }

  lemma CutAtSlash(mount: string, p: string)
    requires '/' !in mount
    ensures Cut(mount + "/" + p, "/") == Some((mount, p))
    ensures Cut(mount, "/") == None
  {
    var s := mount + "/" + p;
    forall j | 0 <= j < |mount|
      ensures !HasPrefix(s[j..], "/") && !HasPrefix(mount[j..], "/")
    {
      assert s[j..][0] == mount[j] && mount[j] in mount;
      assert mount[j..][0] == mount[j];
    }
    assert s[|mount|..] == "/" + p;
    assert HasPrefix(s[|mount|..], "/");
    FindFirst(s, "/", 0, |mount|);
    FindNothing(mount, "/", 0);
    assert s[..|mount|] == mount && s[|mount| + 1..] == p;
  }

  lemma ParsingText(u: URI)
    requires '/' !in u.mount
    ensures Parse(Text(u)) == New(u.mount, u.path)
  {
    var s := Text(u);
    CutAtSlash(u.mount, u.path);
    if u.path == "" {
      assert s[|PREFIX|..] == u.mount;
    } else {
      assert s[..|PREFIX|] == PREFIX;
      assert s[|PREFIX|..] == u.mount + "/" + u.path;
    }
  }

  lemma TextDecidesTheMount(u: URI)
    requires '/' in u.mount
    ensures Parse(Text(u)) != Ok(u)
  {
    ParsedIsContained(Text(u));
  }

  // Reading back a written URI gives that URI exactly when its mount is a name, its path is contained, and its path
  // has no space around it. The last condition is needed: see SpacedPathIsLost.
  lemma ParseInvertsText(u: URI)
    ensures Parse(Text(u)) == Ok(u) <==> GoodMount(u.mount) && Contained(u.path) && Snug(u.path)
  {
    if '/' in u.mount {
      TextDecidesTheMount(u);
    } else {
      ParsingText(u);
      NewIsContained(u.mount, u.path);
      if Parse(Text(u)) == Ok(u) {
        CleanedToItselfIsSnug(u.path);
      }
      if GoodMount(u.mount) && Contained(u.path) && Snug(u.path) {
        ContainedCleansToItself(u.path);
      }
    }
  }

  lemma DottedSplits(e: string)
    requires '/' !in e
    ensures Split("./" + e) == [".", e]
  {
    assert "./" + e == "." + "/" + e;
    SplitAppends(".", e);
    SplitWhole(".");
    SplitWhole(e);
  }

  lemma DottedWalks(e: string)
    requires Plain(e)
    ensures Walk([], [".", e]) == Some([e])
  {
    assert [".", e][1..] == [e];
    WalkPlain([], [e]);
    assert [] + [e] == [e];
  }

  lemma DottedCleans(e: string)
    requires Plain(e) && '\\' !in e && !Space(e[|e| - 1])
    ensures CleanPath("./" + e) == Ok(e)
  {
    var p := "./" + e;
    assert p[0] == '.' && p[|p| - 1] == e[|e| - 1];
    assert '\\' !in "./";
    SlashedAlone(p);
    TrimKeeps(p);
    CleanPathIsAWalk(p);
    DottedSplits(e);
    DottedWalks(e);
    assert Join([e]) == e;
  }

  // Trimming comes before cleaning, so "./ a" is accepted as a path that starts with a space, and that path does not
  // come back.
  lemma SpacedPathIsLost(mount: string, e: string)
    requires GoodMount(mount) && Plain(e) && '\\' !in e
    requires Space(e[0]) && !Space(e[|e| - 1])
    ensures New(mount, "./" + e) == Ok(URI(mount, e))
    ensures Parse(Text(URI(mount, e))) != Ok(URI(mount, e))
  {
    DottedCleans(e);
    ParseInvertsText(URI(mount, e));
  }

  /* ---- references ---- */

  function Elements(p: string): seq<string> {
    if p == "" then [] else Split(p)
  }

  // The directory of a contained path holds all its elements but the last.
  lemma DirDropsTheLast(u: URI)
    requires Contained(u.path)
    ensures Dir(u).mount == u.mount && Contained(Dir(u).path)
    ensures u.path != "" ==> Elements(Dir(u).path) == Split(u.path)[..|Split(u.path)| - 1]
  {
    if u.path != "" {
      var elems := Split(u.path);
      var front := elems[..|elems| - 1];
      var text := Join(front);
      CleanIsWalk(text);
      SplitKeepsOut(u.path, '\\');
      JoinKeepsOut(front, '\\');
      if front == [] {
        assert Walk([], [""]) == Some([]);
      } else {
        SplitJoin(front);
        WalkPlain([], front);
        assert [] + front == front;
        PlainTextStaysPut(front);
      }
    }
  }

  // Neither slashes nor trimming hide that a text opens by climbing.
  lemma ClimbingTextOpensSo(p: string)
    requires p == ".." || HasPrefix(p, "../")
    ensures var q := Trim(Slashed(p)); q == ".." || HasPrefix(q, "../")
  {
    var s := Slashed(p);
    assert s[0] == '.' && s[1] == '.' && (|p| > 2 ==> p[2] == '/' && s[2] == '/');
    assert TrimLeft(s) == s;
    TrimRightKeepsHead(s, if p == ".." then 2 else 3);
    var q := Trim(s);
    if p == ".." {
      assert q == "..";
    } else {
      assert q[..3] == s[..3] == "../";
    }
  }

  lemma OpensByClimbing(q: string)
    requires q == ".." || HasPrefix(q, "../")
    ensures Walk([], Split(q)) == None && !HasPrefix(q, "/")
  {
    if q == ".." {
      SplitWhole(q);
    } else {
      OpeningElement(q, "..");
    }
    assert Split(q)[0] == "..";
  }

  lemma ClimbingTextIsRefused(mount: string, p: string)
    requires GoodMount(mount) && (p == ".." || HasPrefix(p, "../"))
    ensures New(mount, p) == Err(EscapesMount)
  {
    ClimbingTextOpensSo(p);
    CleanPathIsAWalk(p);
    OpensByClimbing(Trim(Slashed(p)));
  }

  // Walking from the directory of u along rel.
  function Reach(u: URI, rel: string): Option<seq<string>> {
    Walk(Elements(Dir(u).path), Split(rel))
  }

  lemma JoinedIsReached(u: URI, rel: string)
    requires Contained(u.path)
    ensures var t := JoinClean(Dir(u).path, rel);
            match Reach(u, rel)
            case None => t == ".." || HasPrefix(t, "../")
            case Some(w) => if w == [] then t == "" || t == "." else t == Join(w)
  {
    var d := Dir(u).path;
    DirDropsTheLast(u);
    CleanIsWalk(d);
    CleanIsWalk(rel);
    CleanIsWalk(d + "/" + rel);
    SplitAppends(d, rel);
    if d != "" {
      WalkPlain([], Split(d));
      assert [] + Split(d) == Split(d);
      WalkAppends([], Split(d), Split(rel));
      if rel == "" {
        assert Walk(Split(d), [""]) == Walk(Split(d), []);
      }
    } else if rel == "" {
      assert Walk([], [""]) == Walk([], []);
    }
  }

  // A relative reference names what walking it from the directory of the page reaches, and is refused when the walk
  // leaves the mount, rather than clamped at the root. A backslash in it is no separator on this walk; what the walk
  // reaches is then read as any client's path is, with every backslash a slash and the space around it gone.
  lemma ResolveIsAWalk(u: URI, rel: string)
    requires GoodMount(u.mount) && Contained(u.path)
    requires !HasPrefix(rel, PREFIX) && !HasPrefix(rel, "/")
    ensures Reach(u, rel).None? ==> Resolve(u, rel) == Err(EscapesMount)
    ensures Reach(u, rel).Some? ==> Resolve(u, rel) == New(u.mount, Join(Reach(u, rel).value))
    ensures Reach(u, rel).Some? && '\\' !in rel && Snug(Join(Reach(u, rel).value)) ==>
              Resolve(u, rel) == Ok(URI(u.mount, Join(Reach(u, rel).value)))
  {
    JoinedIsReached(u, rel);
    match Reach(u, rel)
    case None => ClimbingTextIsRefused(u.mount, JoinClean(Dir(u).path, rel));
    case Some(w) =>
      EmptyAndDotAreTheRoot();
      if '\\' !in rel && Snug(Join(w)) {
        ReachedIsContained(u, rel);
        ContainedCleansToItself(Join(w));
      }
  }

  // Something below u is what walking the joined elements from the mount root reaches. Elements that open with a slash at
  // the mount root are refused, and so are those that climb out of it.
  lemma BelowIsAWalk(u: URI, elems: seq<string>)
    requires GoodMount(u.mount)
    ensures var text := Joined(u, elems);
            Below(u, elems) ==
              if HasPrefix(text, "/") then Err(AbsolutePath)
              else match Walk([], Split(text))
                case None => Err(EscapesMount)
                case Some(w) => New(u.mount, Join(w))
  {
    var text := Joined(u, elems);
    EmptyAndDotAreTheRoot();
    if NonEmpty([u.path] + elems) == [] {
      assert Walk([], [""]) == Walk([], []);
    } else if HasPrefix(text, "/") {
      RootedTextIsRefused(u.mount, CleanAny(text));
    } else {
      CleanIsWalk(text);
      if Walk([], Split(text)).None? {
        ClimbingTextIsRefused(u.mount, Clean(text));
      }
    }
  }

  lemma RootedTextIsRefused(mount: string, p: string)
    requires GoodMount(mount) && HasPrefix(p, "/")
    ensures New(mount, p) == Err(AbsolutePath)
  {
    var s := Slashed(p);
    assert s[0] == '/';
    TrimRightKeepsHead(s, 1);
  }

  lemma ReachedIsContained(u: URI, rel: string)
    requires Contained(u.path) && '\\' !in rel && Reach(u, rel).Some?
    ensures Contained(Join(Reach(u, rel).value))
  {
    var d := Elements(Dir(u).path);
    var w := Reach(u, rel).value;
    DirDropsTheLast(u);
    WalkStaysPlain(d, Split(rel));
    SplitKeepsOut(rel, '\\');
    SplitKeepsOut(Dir(u).path, '\\');
    WalkKeepsOut(d, Split(rel), '\\');
    JoinKeepsOut(w, '\\');
    if w != [] {
      SplitJoin(w);
    }
  }

  lemma EmptyAndDotAreTheRoot()
    ensures CleanPath("") == Ok("") && CleanPath(".") == Ok("")
  {
    SlashedAlone("");
    SlashedAlone(".");
    TrimKeeps(".");
    TrimKeeps("");
    CleanPathIsAWalk(".");
    SplitWhole(".");
    assert Walk([], ["."]) == Walk([], []);
  }

  // A reference from the root is refused as soon as it climbs, where section 5.2.4 of RFC 3986 would drop the step.
  lemma RootedReferenceMayNotClimb(u: URI, x: string)
    requires GoodMount(u.mount)
    ensures Resolve(u, "/../" + x) == Err(EscapesMount)
  {
    var rel := "/../" + x;
    assert TrimPrefix(rel, "/") == "../" + x;
    assert HasPrefix("../" + x, "../");
    assert rel[0] == '/' && PREFIX[0] == 'm';
    ClimbingTextIsRefused(u.mount, "../" + x);
  }

  /* ---- joining a contained path onto a host directory ---- */

  // A mount's folder on the host, as the elements of its absolute, clean path.
  datatype Mount = Mount(name: string, root: seq<string>)

  function Shared(a: seq<string>, b: seq<string>): (n: nat)
    ensures n <= |a| && n <= |b| && a[..n] == b[..n]
    ensures n == |a| || n == |b| || a[n] != b[n]
  {
    if a != [] && b != [] && a[0] == b[0] then Shared(a[1..], b[1..]) + 1 else 0
  }

  // The relative path from base to target, as filepath.Rel writes it for two absolute clean paths.
  function Rel(base: seq<string>, target: seq<string>): string {
    var n := Shared(base, target);
    var steps := seq(|base| - n, _ => "..") + target[n..];
    if steps == [] then "." else Join(steps)
  }

  function SafeResolve(root: seq<string>, rel: string): Result<seq<string>> {
    if HasPrefix(rel, "/") then Err(AbsolutePath)
    else
      var joined := ReduceRooted(root, Split(rel));
      var within := Rel(root, joined);
      if within == ".." || HasPrefix(within, "../") then Err(EscapesRoot) else Ok(joined)
  }

  lemma {:induction false} ReduceRootedStaysPlain(kept: seq<string>, elems: seq<string>)
    requires AllPlain(kept) && forall e | e in elems :: '/' !in e
    ensures AllPlain(ReduceRooted(kept, elems))
    decreases |elems|
  {
    if elems != [] {
      var e := elems[0];
      if e == "" || e == "." {
        ReduceRootedStaysPlain(kept, elems[1..]);
      } else if e != ".." {
        ReduceRootedStaysPlain(kept + [e], elems[1..]);
      } else {
        ReduceRootedStaysPlain(if kept != [] then kept[..|kept| - 1] else kept, elems[1..]);
      }
    }
  }

  lemma {:induction false} ReduceRootedPlain(kept: seq<string>, elems: seq<string>)
    requires AllPlain(elems)
    ensures ReduceRooted(kept, elems) == kept + elems
    decreases |elems|
  {
    if elems != [] {
      assert Plain(elems[0]);
      ReduceRootedPlain(kept + [elems[0]], elems[1..]);
      assert kept + elems == (kept + [elems[0]]) + elems[1..];
    } else {
      assert kept + elems == kept;
    }
  }

  // The relative path climbs exactly when the target is not under the base.
  lemma RelClimbsOutside(base: seq<string>, target: seq<string>)
    requires AllPlain(base) && AllPlain(target)
    ensures (Rel(base, target) == ".." || HasPrefix(Rel(base, target), "../")) <==> !(base <= target)
  {
    var n := Shared(base, target);
    var steps := seq(|base| - n, _ => "..") + target[n..];
    if n == |base| {
      assert steps == target[n..];
      if steps != [] {
        PlainTextStaysPut(steps);
      }
    } else {
      assert steps[0] == "..";
      assert n == |target| || base[n] != target[n];
      if |steps| > 1 {
        assert Join(steps) == ".." + "/" + Join(steps[1..]);
      }
    }
  }

  // The join accepts a relative path exactly when it ends inside the root, and what it accepts is inside the root.
  lemma SafeResolveStaysInside(root: seq<string>, rel: string)
    requires AllPlain(root)
    ensures SafeResolve(root, rel).Ok? <==> !HasPrefix(rel, "/") && root <= ReduceRooted(root, Split(rel))
    ensures SafeResolve(root, rel).Ok? ==> root <= SafeResolve(root, rel).value && AllPlain(SafeResolve(root, rel).value)
  {
    ReduceRootedStaysPlain(root, Split(rel));
    RelClimbsOutside(root, ReduceRooted(root, Split(rel)));
  }

  // A contained path always passes the join, and lands at its own elements under the root.
  lemma ContainedPassesTheJoin(root: seq<string>, rel: string)
    requires AllPlain(root) && Contained(rel)
    ensures SafeResolve(root, rel) == Ok(root + Elements(rel))
  {
    SafeResolveStaysInside(root, rel);
    if rel == "" {
      assert ReduceRooted(root, [""]) == ReduceRooted(root, []);
      assert root + [] == root;
    } else {
      ReduceRootedPlain(root, Split(rel));
      JoinSplit(rel);
      PlainTextStaysPut(Split(rel));
    }
  }

  method FindMount(mounts: seq<Mount>, name: string) returns (found: Option<Mount>)
    ensures found.Some? <==> exists m :: m in mounts && m.name == name
    ensures found.Some? ==> exists i :: 0 <= i < |mounts| && mounts[i] == found.value && found.value.name == name
                                     && forall j | 0 <= j < i :: mounts[j].name != name
  {
    for i := 0 to |mounts|
      invariant forall j | 0 <= j < i :: mounts[j].name != name
    {
      if mounts[i].name == name {
        return Some(mounts[i]);
      }
    }
    return None;
  }

  // Mapping a URI the boundary handed out to the host: unless the mount is unknown it succeeds, inside the folder of
  // the first mount of that name.
  method ResolveOnHost(mounts: seq<Mount>, u: URI) returns (r: Result<seq<string>>)
    requires forall m | m in mounts :: AllPlain(m.root)
    requires Contained(u.path)
    ensures r == Err(NoSuchMount) <==> forall m | m in mounts :: m.name != u.mount
    ensures r != Err(NoSuchMount) ==>
              exists m :: m in mounts && m.name == u.mount && r == Ok(m.root + Elements(u.path))
  {
    var found := FindMount(mounts, u.mount);
    match found
    case None => r := Err(NoSuchMount);
    case Some(m) =>
      ContainedPassesTheJoin(m.root, u.path);
      r := SafeResolve(m.root, u.path);
  }
}

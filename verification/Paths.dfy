// Slash-separated paths, read as lists of elements: splitting and joining, lexical cleaning, and the walk through
// directories that cleaning stands for.
module Paths {

  datatype Option<T> = None | Some(value: T)

  /* ---- text ---- */

  function Split(s: string): (r: seq<string>)
    ensures r != []
    ensures forall e | e in r :: '/' !in e
  {
    if s == "" then [""]
    else if s[0] == '/' then [""] + Split(s[1..])
    else Longer(s[0], Split(s[1..]))
  }

  // The elements whose first has c before it.
  function Longer(c: char, elems: seq<string>): seq<string>
    requires elems != []
  {
    [[c] + elems[0]] + elems[1..]
  }

  function Join(parts: seq<string>): string {
    if parts == [] then ""
    else if |parts| == 1 then parts[0]
    else parts[0] + "/" + Join(parts[1..])
  }

  lemma {:induction false} JoinSplit(s: string)
    ensures Join(Split(s)) == s
  {
    if s != "" {
      JoinSplit(s[1..]);
      var rest := Split(s[1..]);
      if s[0] == '/' {
        assert ([""] + rest)[1..] == rest;
      } else if |rest| > 1 {
        assert Longer(s[0], rest)[1..] == rest[1..];
      }
    }
  }

  lemma {:induction false} SplitWhole(e: string)
    requires '/' !in e
    ensures Split(e) == [e]
    decreases |e|
  {
    if e != "" {
      assert e[0] in e && e == [e[0]] + e[1..];
      SplitWhole(e[1..]);
    }
  }

  lemma LongerAppends(c: char, a: seq<string>, b: seq<string>)
    requires a != []
    ensures Longer(c, a + b) == Longer(c, a) + b
  {
    assert (a + b)[1..] == a[1..] + b;
  }

  lemma {:induction false} SplitAppends(a: string, b: string)
    ensures Split(a + "/" + b) == Split(a) + Split(b)
    decreases |a|
  {
    var s := a + "/" + b;
    if a == "" {
      assert s[0] == '/' && s[1..] == b;
    } else {
      SplitAppends(a[1..], b);
      assert s[0] == a[0] && s[1..] == a[1..] + "/" + b;
      if a[0] == '/' {
        assert Split(a) == [""] + Split(a[1..]);
      } else {
        LongerAppends(a[0], Split(a[1..]), Split(b));
      }
    }
  }

  lemma {:induction false} SplitJoin(parts: seq<string>)
    requires parts != [] && forall e | e in parts :: '/' !in e
    ensures Split(Join(parts)) == parts
    decreases |parts|
  {
    assert parts[0] in parts;
    if |parts| == 1 {
      SplitWhole(parts[0]);
    } else {
      assert parts == [parts[0]] + parts[1..];
      SplitJoin(parts[1..]);
      SplitAppends(parts[0], Join(parts[1..]));
      SplitWhole(parts[0]);
    }
  }

  lemma {:induction false} JoinAppends(a: seq<string>, b: seq<string>)
    requires a != [] && b != []
    ensures Join(a + b) == Join(a) + "/" + Join(b)
    decreases |a|
  {
    if |a| == 1 {
      assert (a + b)[1..] == b;
    } else {
      JoinAppends(a[1..], b);
      assert (a + b)[1..] == a[1..] + b;
    }
  }

  /* ---- cleaning ---- */

  // One element of a relative path, against the elements kept so far.
  function Step(kept: seq<string>, e: string): seq<string> {
    if e == "" || e == "." then kept
    else if e != ".." then kept + [e]
    else if kept != [] && kept[|kept| - 1] != ".." then kept[..|kept| - 1]
    else kept + [".."]
  }

  function Reduce(kept: seq<string>, elems: seq<string>): seq<string>
    decreases |elems|
  {
    if elems == [] then kept else Reduce(Step(kept, elems[0]), elems[1..])
  }

  // Lexical cleaning of a relative path, as Go's path.Clean does it.
  function Clean(p: string): string {
    var kept := Reduce([], Split(p));
    if kept == [] then "." else Join(kept)
  }

  // Joining and cleaning, as Go's path.Join does it for two relative elements.
  function JoinClean(a: string, b: string): string {
    if a == "" && b == "" then ""
    else if a == "" then Clean(b)
    else if b == "" then Clean(a)
    else Clean(a + "/" + b)
  }

  // An element that names something: neither empty, nor a step in place or up.
  predicate Plain(e: string) {
    e != "" && e != "." && e != ".." && '/' !in e
  }

  predicate AllPlain(elems: seq<string>) {
    forall e | e in elems :: Plain(e)
  }

  // The independent reading of a path: walk it from a directory, one element at a time, and fail on the first step
  // that would leave the root.
  function Walk(at: seq<string>, elems: seq<string>): Option<seq<string>>
    decreases |elems|
  {
    if elems == [] then Some(at)
    else if elems[0] == "" || elems[0] == "." then Walk(at, elems[1..])
    else if elems[0] != ".." then Walk(at + [elems[0]], elems[1..])
    else if at == [] then None
    else Walk(at[..|at| - 1], elems[1..])
  }

  lemma {:induction false} WalkStaysPlain(at: seq<string>, elems: seq<string>)
    requires AllPlain(at) && forall e | e in elems :: '/' !in e
    ensures Walk(at, elems).Some? ==> AllPlain(Walk(at, elems).value)
    decreases |elems|
  {
    if elems != [] {
      if elems[0] == "" || elems[0] == "." {
        WalkStaysPlain(at, elems[1..]);
      } else if elems[0] != ".." {
        WalkStaysPlain(at + [elems[0]], elems[1..]);
      } else if at != [] {
        WalkStaysPlain(at[..|at| - 1], elems[1..]);
      }
    }
  }

  // A leading step up is never undone.
  lemma {:induction false} UpStays(kept: seq<string>, elems: seq<string>)
    requires kept != [] && kept[0] == ".."
    ensures Reduce(kept, elems) != [] && Reduce(kept, elems)[0] == ".."
    decreases |elems|
  {
    if elems != [] {
      UpStays(Step(kept, elems[0]), elems[1..]);
    }
  }

  // Cleaning is the walk, and shows a leading step up exactly when the walk leaves the root.
  lemma {:induction false} ReduceIsWalk(at: seq<string>, elems: seq<string>)
    requires AllPlain(at)
    requires forall e | e in elems :: '/' !in e
    ensures Walk(at, elems).Some? ==> Reduce(at, elems) == Walk(at, elems).value
    ensures Walk(at, elems).None? ==> Reduce(at, elems) != [] && Reduce(at, elems)[0] == ".."
    decreases |elems|
  {
    if elems != [] {
      var e := elems[0];
      if e == "" || e == "." {
        ReduceIsWalk(at, elems[1..]);
      } else if e != ".." {
        ReduceIsWalk(at + [e], elems[1..]);
      } else if at == [] {
        assert Step(at, e) == [".."];
        UpStays([".."], elems[1..]);
      } else {
        assert Plain(at[|at| - 1]);
        ReduceIsWalk(at[..|at| - 1], elems[1..]);
      }
    }
  }

  lemma {:induction false} WalkPlain(at: seq<string>, elems: seq<string>)
    requires AllPlain(elems)
    ensures Walk(at, elems) == Some(at + elems)
    decreases |elems|
  {
    if elems != [] {
      assert Plain(elems[0]);
      WalkPlain(at + [elems[0]], elems[1..]);
      assert at + elems == (at + [elems[0]]) + elems[1..];
    } else {
      assert at + elems == at;
    }
  }

  lemma {:induction false} WalkAppends(at: seq<string>, a: seq<string>, b: seq<string>)
    ensures Walk(at, a + b) == (if Walk(at, a).None? then None else Walk(Walk(at, a).value, b))
    decreases |a|
  {
    if a == [] {
      assert a + b == b;
    } else {
      assert (a + b)[1..] == a[1..] + b;
      if a[0] == "" || a[0] == "." {
        WalkAppends(at, a[1..], b);
      } else if a[0] != ".." {
        WalkAppends(at + [a[0]], a[1..], b);
      } else if at != [] {
        WalkAppends(at[..|at| - 1], a[1..], b);
      }
    }
  }

  // What cleaning answers, in terms of the walk.
  lemma CleanIsWalk(p: string)
    ensures Walk([], Split(p)) == None ==>
              Clean(p) == ".." || (|Clean(p)| >= 3 && Clean(p)[..3] == "../")
    ensures Walk([], Split(p)).Some? ==>
              var w := Walk([], Split(p)).value;
              AllPlain(w) && Clean(p) == if w == [] then "." else Join(w)
  {
    ReduceIsWalk([], Split(p));
    WalkStaysPlain([], Split(p));
    var kept := Reduce([], Split(p));
    if Walk([], Split(p)).None? && |kept| > 1 {
      assert Join(kept) == ".." + "/" + Join(kept[1..]);
    }
  }

  /* ---- cleaning never lengthens ---- */

  function Weight(parts: seq<string>): nat {
    if parts == [] then 0 else |parts[0]| + 1 + Weight(parts[1..])
  }

  lemma {:induction false} JoinWeight(parts: seq<string>)
    ensures |Join(parts)| == if parts == [] then 0 else Weight(parts) - 1
    decreases |parts|
  {
    if |parts| > 1 {
      JoinWeight(parts[1..]);
    }
  }

  lemma {:induction false} WeightAppends(a: seq<string>, b: seq<string>)
    ensures Weight(a + b) == Weight(a) + Weight(b)
    decreases |a|
  {
    if a == [] {
      assert a + b == b;
    } else {
      WeightAppends(a[1..], b);
      assert (a + b)[1..] == a[1..] + b;
    }
  }

  lemma {:induction false} ReduceWeight(kept: seq<string>, elems: seq<string>)
    ensures Weight(Reduce(kept, elems)) <= Weight(kept) + Weight(elems)
    decreases |elems|
  {
    if elems != [] {
      var next := Step(kept, elems[0]);
      ReduceWeight(next, elems[1..]);
      WeightAppends(kept, [elems[0]]);
      if kept != [] {
        WeightAppends(kept[..|kept| - 1], [kept[|kept| - 1]]);
        assert kept == kept[..|kept| - 1] + [kept[|kept| - 1]];
      }
      assert Weight(elems) == Weight([elems[0]]) + Weight(elems[1..]);
    }
  }

  lemma ReduceIsNoLonger(p: string)
    ensures |Join(Reduce([], Split(p)))| <= |p|
  {
    JoinSplit(p);
    JoinWeight(Split(p));
    JoinWeight(Reduce([], Split(p)));
    ReduceWeight([], Split(p));
  }

  /* ---- extensions ---- */

  function LastDot(s: string): (r: Option<nat>)
    ensures r.Some? ==> r.value < |s| && s[r.value] == '.'
  {
    if s == "" then None
    else
      match LastDot(s[1..])
      case Some(i) => Some(i + 1)
      case None => if s[0] == '.' then Some(0) else None
  }

  // What follows the last dot of a path element, dot included, as Go's path.Ext reads it.
  function Ext(name: string): string {
    match LastDot(name)
    case None => ""
    case Some(i) => name[i..]
  }

  lemma {:induction false} LastDotOf(s: string, e: string)
    requires e != "" && e[0] == '.' && '.' !in e[1..]
    ensures LastDot(s + e) == Some(|s|)
    decreases |s|
  {
    if s == "" {
      assert s + e == e;
      NoDot(e[1..]);
    } else {
      assert (s + e)[1..] == s[1..] + e;
      LastDotOf(s[1..], e);
    }
  }

  lemma {:induction false} NoDot(s: string)
    requires '.' !in s
    ensures LastDot(s) == None
  {
    if s != "" {
      NoDot(s[1..]);
    }
  }

  /* ---- surrounding space ---- */

  // What Go's strings.TrimSpace takes for space: Unicode's White_Space.
  predicate Space(c: char) {
    c in {'\t', '\n', '\U{000B}', '\U{000C}', '\r', ' ', '\U{0085}', '\U{00A0}', '\U{1680}', '\U{2028}', '\U{2029}', '\U{202F}',
          '\U{205F}', '\U{3000}'} || '\U{2000}' <= c <= '\U{200A}'
  }

  function TrimLeft(s: string): string {
    if s != "" && Space(s[0]) then TrimLeft(s[1..]) else s
  }

  function TrimRight(s: string): string {
    if s != "" && Space(s[|s| - 1]) then TrimRight(s[..|s| - 1]) else s
  }

  function Trim(s: string): string {
    TrimRight(TrimLeft(s))
  }

  // Text with no space around it, which trimming leaves alone.
  predicate Snug(s: string) {
    s == "" || (!Space(s[0]) && !Space(s[|s| - 1]))
  }

  lemma {:induction false} TrimLeftKeeps(s: string)
    ensures |TrimLeft(s)| <= |s|
    ensures TrimLeft(s) == s || |TrimLeft(s)| < |s|
    ensures forall c | c in TrimLeft(s) :: c in s
  {
    if s != "" && Space(s[0]) {
      TrimLeftKeeps(s[1..]);
    }
  }

  lemma {:induction false} TrimRightKeeps(s: string)
    ensures |TrimRight(s)| <= |s|
    ensures TrimRight(s) == s || |TrimRight(s)| < |s|
    ensures forall c | c in TrimRight(s) :: c in s
  {
    if s != "" && Space(s[|s| - 1]) {
      TrimRightKeeps(s[..|s| - 1]);
    }
  }

  lemma TrimKeeps(s: string)
    ensures Trim(s) == s <==> Snug(s)
    ensures |Trim(s)| == |s| ==> Trim(s) == s
    ensures |Trim(s)| <= |s|
    ensures forall c | c in Trim(s) :: c in s
  {
    TrimLeftKeeps(s);
    TrimRightKeeps(TrimLeft(s));
    if s != "" && Space(s[0]) {
      TrimLeftKeeps(s[1..]);
    } else if s != "" && Space(s[|s| - 1]) {
      TrimRightKeeps(s[..|s| - 1]);
    }
  }

  // Trimming the right stops at the last character that is not space.
  lemma {:induction false} TrimRightKeepsHead(s: string, k: nat)
    requires 0 < k <= |s| && !Space(s[k - 1])
    ensures |TrimRight(s)| >= k && TrimRight(s)[..k] == s[..k]
    decreases |s|
  {
    if Space(s[|s| - 1]) {
      TrimRightKeepsHead(s[..|s| - 1], k);
      assert s[..|s| - 1][..k] == s[..k];
    }
  }
}

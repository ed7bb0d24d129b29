// What one file reaches through the files it names: a growing worklist, against reachability along chains of
// references (service/propose.go).
module Closures {
  import opened Sorting

  // names gives what a file names; may says which files a reference can lead to.
  ghost predicate Chain(names: string -> seq<string>, may: set<string>, chain: seq<string>) {
    && chain != []
    && (|chain| > 1 ==> chain[1] in names(chain[0]) && chain[1] in may && Chain(names, may, chain[1..]))
  }

  ghost predicate Reaches(names: string -> seq<string>, may: set<string>, root: string, f: string) {
    exists chain :: Chain(names, may, chain) && chain[0] == root && chain[|chain| - 1] == f
  }

  lemma RootIsReached(names: string -> seq<string>, may: set<string>, root: string)
    ensures Reaches(names, may, root, root)
  {
    assert Chain(names, may, [root]);
  }

  lemma {:induction false} ChainGrows(names: string -> seq<string>, may: set<string>, chain: seq<string>, g: string)
    requires Chain(names, may, chain) && g in names(chain[|chain| - 1]) && g in may
    ensures Chain(names, may, chain + [g])
  {
    if |chain| > 1 {
      ChainGrows(names, may, chain[1..], g);
      assert (chain + [g])[1..] == chain[1..] + [g];
    } else {
      assert (chain + [g])[1..] == [g];
    }
  }

  lemma NamedIsReached(names: string -> seq<string>, may: set<string>, root: string, f: string, g: string)
    requires Reaches(names, may, root, f) && g in names(f) && g in may
    ensures Reaches(names, may, root, g)
  {
    var chain :| Chain(names, may, chain) && chain[0] == root && chain[|chain| - 1] == f;
    ChainGrows(names, may, chain, g);
    var longer := chain + [g];
    assert longer[0] == root && longer[|longer| - 1] == g;
  }

  // A set that holds the root and everything its members may lead to holds everything reached.
  lemma {:induction false} ClosedHoldsChain(names: string -> seq<string>, may: set<string>, held: set<string>,
                                            chain: seq<string>)
    requires Chain(names, may, chain) && chain[0] in held
    requires forall f, g | f in held && g in names(f) && g in may :: g in held
    ensures chain[|chain| - 1] in held
    decreases |chain|
  {
    if |chain| > 1 {
      assert chain[1] in held;
      ClosedHoldsChain(names, may, held, chain[1..]);
    }
  }

  lemma ClosedHoldsAll(names: string -> seq<string>, may: set<string>, root: string, held: set<string>)
    requires root in held
    requires forall f, g | f in held && g in names(f) && g in may :: g in held
    ensures forall f | Reaches(names, may, root, f) :: f in held
  {
    forall f | Reaches(names, may, root, f) ensures f in held {
      var chain :| Chain(names, may, chain) && chain[0] == root && chain[|chain| - 1] == f;
      ClosedHoldsChain(names, may, held, chain);
    }
  }

  ghost function Held(xs: seq<string>): set<string> {
    set x | x in xs
  }

  lemma {:induction false} NoRepeatsFits(xs: seq<string>, within: set<string>)
    requires NoRepeats(xs) && forall x | x in xs :: x in within
    ensures |xs| <= |within|
    decreases |xs|
  {
    if xs != [] {
      NoRepeatsFits(xs[1..], within - {xs[0]});
    }
  }

  // The worklist with its first done members followed: only reached files are on it, each once.
  ghost predicate Working(root: string, names: string -> seq<string>, may: set<string>, out: seq<string>,
                          seen: set<string>, done: nat)
  {
    && out != [] && out[0] == root && NoRepeats(out) && done <= |out|
    && (forall f :: f in seen <==> f in out)
    && (forall f | f in out :: Reaches(names, may, root, f) && (f in may || f == root))
    && (forall j, g | 0 <= j < done && g in names(out[j]) && g in may :: g in out)
  }

  // The files root reaches, root first, each once. References may form cycles: a file seen is not added again, and only
  // the files there are can be added, so the list stops growing.
  method Closure(root: string, names: string -> seq<string>, may: set<string>) returns (out: seq<string>)
    ensures out != [] && out[0] == root && NoRepeats(out)
    ensures forall f :: f in out <==> Reaches(names, may, root, f)
  {
    var seen := {root};
    out := [root];
    RootIsReached(names, may, root);
    var i := 0;
    while i < |out|
      invariant Working(root, names, may, out, seen, i)
      decreases |may + {root}| - |out|, |out| - i
    {
      out, seen := Follow(root, names, may, out, seen, i);
      i := i + 1;
    }
    WorkedOut(root, names, may, out, seen);
  }

  lemma WorkedOut(root: string, names: string -> seq<string>, may: set<string>, out: seq<string>, seen: set<string>)
    requires Working(root, names, may, out, seen, |out|)
    ensures forall f :: f in out <==> Reaches(names, may, root, f)
  {
    ClosedHoldsAll(names, may, root, Held(out));
  }

  lemma WorksOneMore(root: string, names: string -> seq<string>, may: set<string>, out: seq<string>, seen: set<string>,
                     done: nat, child: string)
    requires Working(root, names, may, out, seen, done) && Reaches(names, may, root, child)
    requires child in may && child !in seen
    ensures Working(root, names, may, out + [child], seen + {child}, done)
  {
  }

  lemma WorkFits(root: string, names: string -> seq<string>, may: set<string>, out: seq<string>, seen: set<string>,
                 done: nat)
    requires Working(root, names, may, out, seen, done)
    ensures |out| <= |may + {root}|
  {
    NoRepeatsFits(out, may + {root});
  }

  // One turn: what out[i] names, and is there, and is new.
  method Follow(root: string, names: string -> seq<string>, may: set<string>, was: seq<string>, seen: set<string>, i: nat)
    returns (out: seq<string>, now: set<string>)
    requires Working(root, names, may, was, seen, i) && i < |was|
    ensures Working(root, names, may, out, now, i + 1)
    ensures |was| <= |out| <= |may + {root}|
  {
    out, now := was, seen;
    var refs := names(was[i]);
    for k := 0 to |refs|
      invariant was <= out && Working(root, names, may, out, now, i)
      invariant forall j | 0 <= j < k && refs[j] in may :: refs[j] in out
    {
      var child := refs[k];
      if child in may && child !in now {
        NamedIsReached(names, may, root, was[i], child);
        WorksOneMore(root, names, may, out, now, i, child);
        now := now + {child};
        out := out + [child];
      }
    }
    WorkFits(root, names, may, out, now, i);
    assert out[i] == was[i];
  }
}

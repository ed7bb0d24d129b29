// Stable sorting by a strict weak order, and the order of strings.
module Sorting {

  ghost predicate StrictWeak<T(!new)>(less: (T, T) -> bool) {
    && (forall x, y :: less(x, y) ==> !less(y, x))
    && (forall x, y, z :: less(x, z) ==> less(x, y) || less(y, z))
  }

  // Distinct items always compare.
  ghost predicate Total<T(!new)>(less: (T, T) -> bool) {
    forall x, y :: x == y || less(x, y) || less(y, x)
  }

  predicate Same<T>(less: (T, T) -> bool, x: T, y: T) {
    !less(x, y) && !less(y, x)
  }

  ghost predicate Sorted<T>(less: (T, T) -> bool, s: seq<T>) {
    forall i, j | 0 <= i < j < |s| :: !less(s[j], s[i])
  }

  // The items of s that compare the same as x, in the order they have in s.
  function Class<T>(less: (T, T) -> bool, x: T, s: seq<T>): seq<T> {
    if s == [] then []
    else if Same(less, x, s[0]) then [s[0]] + Class(less, x, s[1..])
    else Class(less, x, s[1..])
  }

  // t is s rearranged without changing the order of any two items that compare the same.
  ghost predicate StablyRearranges<T(!new)>(less: (T, T) -> bool, s: seq<T>, t: seq<T>) {
    forall x :: Class(less, x, t) == Class(less, x, s)
  }

  // What a stable sort answers: the only sorted sequence that stably rearranges s (see StableSortIsUnique).
  function Sort<T>(less: (T, T) -> bool, s: seq<T>): seq<T> {
    if s == [] then [] else Insert(less, s[0], Sort(less, s[1..]))
  }

  function Insert<T>(less: (T, T) -> bool, x: T, s: seq<T>): seq<T> {
    if s == [] || !less(s[0], x) then [x] + s else [s[0]] + Insert(less, x, s[1..])
  }

  lemma {:induction false} InsertPermutes<T>(less: (T, T) -> bool, x: T, s: seq<T>)
    ensures multiset(Insert(less, x, s)) == multiset([x] + s)
  {
    if !(s == [] || !less(s[0], x)) {
      InsertPermutes(less, x, s[1..]);
      assert s == [s[0]] + s[1..];
    }
  }

  lemma {:induction false} SortPermutes<T>(less: (T, T) -> bool, s: seq<T>)
    ensures multiset(Sort(less, s)) == multiset(s)
    ensures |Sort(less, s)| == |s|
  {
    if s != [] {
      SortPermutes(less, s[1..]);
      InsertPermutes(less, s[0], Sort(less, s[1..]));
      assert s == [s[0]] + s[1..];
    }
    assert |multiset(Sort(less, s))| == |multiset(s)|;
  }

  lemma SameMembers<T>(a: seq<T>, b: seq<T>)
    requires multiset(a) == multiset(b)
    ensures forall x :: x in a <==> x in b
  {
    forall x ensures x in a <==> x in b {
      assert x in a <==> x in multiset(a);
      assert x in b <==> x in multiset(b);
    }
  }

  lemma {:induction false} InsertSorts<T(!new)>(less: (T, T) -> bool, x: T, s: seq<T>)
    requires StrictWeak(less) && Sorted(less, s)
    ensures Sorted(less, Insert(less, x, s))
  {
    var t := Insert(less, x, s);
    if s == [] || !less(s[0], x) {
      forall j | 1 <= j < |t| ensures !less(t[j], x) {
        assert j > 1 ==> !less(s[j - 1], s[0]);
      }
    } else {
      InsertSorts(less, x, s[1..]);
      InsertPermutes(less, x, s[1..]);
      SameMembers(Insert(less, x, s[1..]), [x] + s[1..]);
      forall j | 1 <= j < |t| ensures !less(t[j], t[0]) {
        assert t[j] in Insert(less, x, s[1..]);
        if t[j] != x {
          assert t[j] in s[1..];
          var i :| 0 <= i < |s[1..]| && s[1..][i] == t[j];
          assert s[i + 1] == t[j];
        }
      }
    }
  }

  lemma {:induction false} SortSorts<T(!new)>(less: (T, T) -> bool, s: seq<T>)
    requires StrictWeak(less)
    ensures Sorted(less, Sort(less, s))
  {
    if s != [] {
      SortSorts(less, s[1..]);
      InsertSorts(less, s[0], Sort(less, s[1..]));
    }
  }

  lemma {:induction false} InsertKeepsClass<T(!new)>(less: (T, T) -> bool, x: T, s: seq<T>, c: T)
    requires StrictWeak(less)
    ensures Class(less, c, Insert(less, x, s)) == Class(less, c, [x] + s)
  {
    assert ([x] + s)[1..] == s;
    if !(s == [] || !less(s[0], x)) {
      InsertKeepsClass(less, x, s[1..], c);
      var rest := Insert(less, x, s[1..]);
      assert ([s[0]] + rest)[1..] == rest && ([x] + s[1..])[1..] == s[1..];
    }
  }

  lemma {:induction false} ClassOfSort<T(!new)>(less: (T, T) -> bool, s: seq<T>, c: T)
    requires StrictWeak(less)
    ensures Class(less, c, Sort(less, s)) == Class(less, c, s)
  {
    if s != [] {
      ClassOfSort(less, s[1..], c);
      var rest := Sort(less, s[1..]);
      InsertKeepsClass(less, s[0], rest, c);
      assert ([s[0]] + rest)[1..] == rest;
    }
  }

  lemma SortIsStable<T(!new)>(less: (T, T) -> bool, s: seq<T>)
    requires StrictWeak(less)
    ensures StablyRearranges(less, s, Sort(less, s))
  {
    forall c ensures Class(less, c, Sort(less, s)) == Class(less, c, s) {
      ClassOfSort(less, s, c);
    }
  }

  lemma {:induction false} ClassMembers<T>(less: (T, T) -> bool, c: T, s: seq<T>)
    ensures forall x :: x in Class(less, c, s) <==> x in s && Same(less, c, x)
  {
    if s != [] {
      ClassMembers(less, c, s[1..]);
    }
  }

  lemma HeadsAgree<T(!new)>(less: (T, T) -> bool, s: seq<T>, t: seq<T>)
    requires StrictWeak(less) && Sorted(less, s) && Sorted(less, t) && s != [] && t != []
    requires StablyRearranges(less, s, t)
    ensures s[0] == t[0]
  {
    ClassMembers(less, s[0], t);
    ClassMembers(less, t[0], s);
    assert s[0] in Class(less, s[0], s) && s[0] in t;
    assert t[0] in Class(less, t[0], t) && t[0] in s;
    var i :| 0 <= i < |t| && t[i] == s[0];
    var j :| 0 <= j < |s| && s[j] == t[0];
    assert Same(less, s[0], t[0]);
    assert Class(less, s[0], s)[0] == s[0];
    assert Class(less, s[0], t)[0] == t[0];
  }

  lemma TailsAgree<T(!new)>(less: (T, T) -> bool, s: seq<T>, t: seq<T>)
    requires s != [] && t != [] && s[0] == t[0] && StablyRearranges(less, s, t)
    ensures StablyRearranges(less, s[1..], t[1..])
  {
    forall x ensures Class(less, x, t[1..]) == Class(less, x, s[1..]) {
      assert Class(less, x, t) == Class(less, x, s);
      if Same(less, x, s[0]) {
        assert Class(less, x, t)[1..] == Class(less, x, t[1..]);
        assert Class(less, x, s)[1..] == Class(less, x, s[1..]);
      }
    }
  }

  lemma NothingIsLost<T(!new)>(less: (T, T) -> bool, s: seq<T>, t: seq<T>)
    requires StrictWeak(less) && StablyRearranges(less, s, t) && s != []
    ensures t != []
  {
    assert Class(less, s[0], t) == Class(less, s[0], s) != [];
  }

  // A sorted stable rearrangement is the only one there is, so every stable sorting algorithm answers it.
  lemma {:induction false} StableSortIsUnique<T(!new)>(less: (T, T) -> bool, s: seq<T>, t: seq<T>)
    requires StrictWeak(less) && Sorted(less, s) && Sorted(less, t)
    requires StablyRearranges(less, s, t)
    ensures s == t
    decreases |s|
  {
    if s != [] {
      NothingIsLost(less, s, t);
      HeadsAgree(less, s, t);
      TailsAgree(less, s, t);
      StableSortIsUnique(less, s[1..], t[1..]);
      assert s == [s[0]] + s[1..] && t == [t[0]] + t[1..];
    } else if t != [] {
      NothingIsLost(less, t, s);
    }
  }

  lemma LeastAgree<T(!new)>(less: (T, T) -> bool, s: seq<T>, t: seq<T>)
    requires Total(less) && Sorted(less, s) && Sorted(less, t) && s != [] && t != []
    requires multiset(s) == multiset(t)
    ensures s[0] == t[0]
  {
    SameMembers(s, t);
    assert s[0] in t && t[0] in s;
    var i :| 0 <= i < |t| && t[i] == s[0];
    var j :| 0 <= j < |s| && s[j] == t[0];
  }

  lemma RestAgrees<T>(s: seq<T>, t: seq<T>)
    requires s != [] && t != [] && s[0] == t[0] && multiset(s) == multiset(t)
    ensures multiset(s[1..]) == multiset(t[1..])
  {
    assert s == [s[0]] + s[1..] && t == [t[0]] + t[1..];
    assert multiset(s[1..]) == multiset(s) - multiset{s[0]};
  }

  // Under a total order there is one sorted arrangement of given items, stable or not.
  lemma {:induction false} TotalSortIsUnique<T(!new)>(less: (T, T) -> bool, s: seq<T>, t: seq<T>)
    requires Total(less) && Sorted(less, s) && Sorted(less, t)
    requires multiset(s) == multiset(t)
    ensures s == t
    decreases |s|
  {
    assert |s| == |multiset(s)| && |t| == |multiset(t)|;
    if s != [] {
      LeastAgree(less, s, t);
      RestAgrees(s, t);
      TotalSortIsUnique(less, s[1..], t[1..]);
      assert s == [s[0]] + s[1..] && t == [t[0]] + t[1..];
    }
  }

  /* ---- strings ---- */

  // Go's < on strings.
  predicate Before(a: string, b: string) {
    b != "" && (a == "" || a[0] < b[0] || (a[0] == b[0] && Before(a[1..], b[1..])))
  }

  lemma {:induction false} BeforeIsAsymmetric(a: string, b: string)
    ensures !(Before(a, b) && Before(b, a))
    ensures a == b || Before(a, b) || Before(b, a)
  {
    if a != "" && b != "" && a[0] == b[0] {
      BeforeIsAsymmetric(a[1..], b[1..]);
      assert a == [a[0]] + a[1..] && b == [b[0]] + b[1..];
    }
  }

  lemma {:induction false} BeforeIsTransitive(a: string, b: string, c: string)
    requires Before(a, b) && Before(b, c)
    ensures Before(a, c)
  {
    if a != "" && a[0] == b[0] && b[0] == c[0] {
      BeforeIsTransitive(a[1..], b[1..], c[1..]);
    }
  }

  lemma StringsAreOrdered()
    ensures StrictWeak(Before) && Total(Before)
  {
    forall a, b ensures Before(a, b) ==> !Before(b, a) {
      BeforeIsAsymmetric(a, b);
    }
    forall a, b, c ensures Before(a, c) ==> Before(a, b) || Before(b, c) {
      BeforeIsAsymmetric(a, b);
      BeforeIsAsymmetric(b, c);
      if Before(a, c) && !Before(a, b) && !Before(b, c) && a != b {
        BeforeIsTransitive(b, a, c);
      }
    }
    forall a, b ensures a == b || Before(a, b) || Before(b, a) {
      BeforeIsAsymmetric(a, b);
    }
  }

  // Strictly ascending, and so without repeats.
  ghost predicate Ascending(names: seq<string>) {
    forall i, j | 0 <= i < j < |names| :: Before(names[i], names[j])
  }

  // Strictly ascending lists with the same members are the same list.
  lemma {:induction false} AscendingIsUnique(a: seq<string>, b: seq<string>)
    requires Ascending(a) && Ascending(b) && forall x :: x in a <==> x in b
    ensures a == b
  {
    assert b == [] || b[0] in b;
    if a != [] {
      assert a[0] in a;
      var i :| 0 <= i < |b| && b[i] == a[0];
      assert b[0] in b;
      var j :| 0 <= j < |a| && a[j] == b[0];
      BeforeIsAsymmetric(a[0], b[0]);
      assert a == [a[0]] + a[1..] && b == [b[0]] + b[1..];
      forall x ensures x in a[1..] <==> x in b[1..] {
        TailMembers(a, x);
        TailMembers(b, x);
      }
      AscendingIsUnique(a[1..], b[1..]);
    }
  }

  ghost predicate NoRepeats<T>(xs: seq<T>) {
    forall i, j | 0 <= i < j < |xs| :: xs[i] != xs[j]
  }

  lemma {:induction false} OccursOnce<T>(xs: seq<T>, x: T)
    requires NoRepeats(xs)
    ensures multiset(xs)[x] <= 1
  {
    if xs != [] {
      OccursOnce(xs[1..], x);
      assert xs == [xs[0]] + xs[1..];
      assert xs[0] !in xs[1..];
    }
  }

  // Rearranging a list without repeats makes none.
  lemma DistinctStays<T>(xs: seq<T>, ys: seq<T>)
    requires NoRepeats(xs) && multiset(xs) == multiset(ys)
    ensures NoRepeats(ys)
  {
    forall i, j | 0 <= i < j < |ys| ensures ys[i] != ys[j] {
      OccursOnce(xs, ys[i]);
      assert ys == ys[..i] + [ys[i]] + ys[i + 1..j] + [ys[j]] + ys[j + 1..];
      assert multiset(ys) == multiset(ys[..i]) + multiset{ys[i]} + multiset(ys[i + 1..j]) + multiset{ys[j]}
                             + multiset(ys[j + 1..]);
    }
  }

  // Sorting distinct strings makes them ascend.
  lemma SortedDistinctAscends(xs: seq<string>)
    requires NoRepeats(xs)
    ensures Ascending(Sort(Before, xs)) && forall x :: x in Sort(Before, xs) <==> x in xs
  {
    var sorted := Sort(Before, xs);
    StringsAreOrdered();
    SortSorts(Before, xs);
    SortPermutes(Before, xs);
    SameMembers(sorted, xs);
    DistinctStays(xs, sorted);
    forall i, j | 0 <= i < j < |sorted| ensures Before(sorted[i], sorted[j]) {
      BeforeIsAsymmetric(sorted[i], sorted[j]);
    }
  }

  lemma TailMembers(a: seq<string>, x: string)
    requires Ascending(a) && a != []
    ensures x in a[1..] <==> x in a && x != a[0]
  {
    BeforeIsAsymmetric(a[0], a[0]);
    assert a == [a[0]] + a[1..];
    if x in a[1..] {
      var i :| 0 <= i < |a[1..]| && a[1..][i] == x;
      assert a[i + 1] == x;
    }
  }
}

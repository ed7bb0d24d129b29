// Lists sorted by a name and then by a reference: sorting whole lists and sorting name by name agree.
module Grouping {
  import opened Sorting

  function Where<T>(p: T -> bool, s: seq<T>): seq<T> {
    if s == [] then []
    else if p(s[0]) then [s[0]] + Where(p, s[1..])
    else Where(p, s[1..])
  }

  lemma {:induction false} WhereMembers<T>(p: T -> bool, s: seq<T>)
    ensures forall x | x in Where(p, s) :: x in s && p(x)
    ensures forall x | x in s && p(x) :: x in Where(p, s)
  {
    if s != [] {
      WhereMembers(p, s[1..]);
    }
  }

  // By name, and within one name by reference.
  function ByName<T>(name: T -> string, ref: T -> string): (T, T) -> bool {
    (a: T, b: T) => if name(a) != name(b) then Before(name(a), name(b)) else Before(ref(a), ref(b))
  }

  lemma ByNameIsWeak<T(!new)>(name: T -> string, ref: T -> string)
    ensures StrictWeak(ByName(name, ref))
  {
    StringsAreOrdered();
    var less := ByName(name, ref);
    forall x, y, z ensures less(x, z) ==> less(x, y) || less(y, z) {
      if less(x, z) && !less(x, y) {
        if name(x) != name(y) {
          assert Before(name(y), name(x));
          assert name(x) != name(z) ==> Before(name(x), name(z)) || name(y) == name(z);
          BeforeMeets(name(y), name(x), name(z));
        }
      }
    }
  }

  lemma BeforeMeets(a: string, b: string, c: string)
    requires Before(a, b) && (Before(b, c) || b == c)
    ensures Before(a, c)
  {
    if Before(b, c) {
      BeforeIsTransitive(a, b, c);
    }
  }

  lemma {:induction false} WhereInsert<T(!new)>(less: (T, T) -> bool, p: T -> bool, x: T, s: seq<T>)
    requires StrictWeak(less) && Sorted(less, s)
    ensures Where(p, Insert(less, x, s)) == if p(x) then Insert(less, x, Where(p, s)) else Where(p, s)
  {
    if s == [] || !less(s[0], x) {
      assert ([x] + s)[1..] == s;
      var kept := Where(p, s);
      WhereMembers(p, s);
      if kept != [] {
        assert kept[0] in s;
        var i :| 0 <= i < |s| && s[i] == kept[0];
        assert i > 0 ==> !less(s[i], s[0]);
      }
    } else {
      WhereInsert(less, p, x, s[1..]);
      var rest := Insert(less, x, s[1..]);
      assert ([s[0]] + rest)[1..] == rest;
      if p(s[0]) {
        assert ([s[0]] + Where(p, s[1..]))[1..] == Where(p, s[1..]);
      } else if p(x) {
      }
    }
  }

  // Picking some items out of a sorted list gives what sorting just those items gives.
  lemma {:induction false} WhereSort<T(!new)>(less: (T, T) -> bool, p: T -> bool, s: seq<T>)
    requires StrictWeak(less)
    ensures Where(p, Sort(less, s)) == Sort(less, Where(p, s))
  {
    if s != [] {
      WhereSort(less, p, s[1..]);
      SortSorts(less, s[1..]);
      WhereInsert(less, p, s[0], Sort(less, s[1..]));
      if p(s[0]) {
        assert ([s[0]] + Where(p, s[1..]))[1..] == Where(p, s[1..]);
      }
    }
  }

  function Named<T>(name: T -> string, n: string): T -> bool {
    x => name(x) == n
  }

  function NotNamed<T>(name: T -> string, n: string): T -> bool {
    x => name(x) != n
  }

  // The items of s under each name in turn.
  function InTurn<T>(name: T -> string, names: seq<string>, s: seq<T>): seq<T> {
    if names == [] then [] else Where(Named(name, names[0]), s) + InTurn(name, names[1..], s)
  }

  lemma {:induction false} WhereAll<T>(p: T -> bool, s: seq<T>)
    requires forall x | x in s :: p(x)
    ensures Where(p, s) == s
  {
    if s != [] {
      WhereAll(p, s[1..]);
    }
  }

  lemma {:induction false} WhereNone<T>(p: T -> bool, s: seq<T>)
    requires forall x | x in s :: !p(x)
    ensures Where(p, s) == []
  {
    if s != [] {
      WhereNone(p, s[1..]);
    }
  }

  lemma {:induction false} WhereAppends<T>(p: T -> bool, a: seq<T>, b: seq<T>)
    ensures Where(p, a + b) == Where(p, a) + Where(p, b)
  {
    if a == [] {
      assert a + b == b;
    } else {
      WhereAppends(p, a[1..], b);
      assert (a + b)[1..] == a[1..] + b;
    }
  }

  lemma {:induction false} WhereWithin<T>(p: T -> bool, q: T -> bool, s: seq<T>)
    requires forall x | x in s && p(x) :: q(x)
    ensures Where(p, Where(q, s)) == Where(p, s)
  {
    if s != [] {
      WhereWithin(p, q, s[1..]);
    }
  }

  lemma NoneIsNamed<T(!new)>(name: T -> string, ref: T -> string, n: string, t: seq<T>)
    requires Sorted(ByName(name, ref), t) && t != [] && Before(n, name(t[0]))
    ensures forall x | x in t :: name(x) != n
  {
    BeforeIsAsymmetric(n, name(t[0]));
    forall x | x in t ensures name(x) != n {
      var i :| 0 <= i < |t| && t[i] == x;
      assert i > 0 ==> !ByName(name, ref)(t[i], t[0]);
    }
  }

  // When one name comes before all others, a sorted list starts with its items.
  lemma {:induction false} FirstNameLeads<T(!new)>(name: T -> string, ref: T -> string, n: string, t: seq<T>)
    requires Sorted(ByName(name, ref), t)
    requires forall x | x in t :: name(x) == n || Before(n, name(x))
    ensures Where(Named(name, n), t) + Where(NotNamed(name, n), t) == t
  {
    if t != [] {
      if name(t[0]) == n {
        var rest := t[1..];
        assert t == [t[0]] + rest;
        SortedTail(ByName(name, ref), [t[0]], rest);
        FirstNameLeads(name, ref, n, rest);
        var a, b := Where(Named(name, n), rest), Where(NotNamed(name, n), rest);
        assert Where(Named(name, n), t) == [t[0]] + a && Where(NotNamed(name, n), t) == b;
        assert ([t[0]] + a) + b == [t[0]] + (a + b);
      } else {
        NoneIsNamed(name, ref, n, t);
        WhereNone(Named(name, n), t);
        WhereAll(NotNamed(name, n), t);
      }
    }
  }

  lemma {:induction false} InTurnWithout<T(!new)>(name: T -> string, names: seq<string>, n: string, t: seq<T>)
    requires n !in names
    ensures InTurn(name, names, Where(NotNamed(name, n), t)) == InTurn(name, names, t)
  {
    if names != [] {
      WhereWithin(Named(name, names[0]), NotNamed(name, n), t);
      InTurnWithout(name, names[1..], n, t);
    }
  }

  // A list sorted by name is its items name by name.
  lemma {:induction false} SortedIsInTurn<T(!new)>(name: T -> string, ref: T -> string, names: seq<string>, t: seq<T>)
    requires Sorted(ByName(name, ref), t) && Ascending(names)
    requires forall x | x in t :: name(x) in names
    ensures InTurn(name, names, t) == t
    decreases names
  {
    assert t == [] || name(t[0]) in names;
    if names != [] {
      var n, rest := names[0], Where(NotNamed(name, names[0]), t);
      forall x | x in t ensures name(x) == n || Before(n, name(x)) {
        var i :| 0 <= i < |names| && names[i] == name(x);
      }
      FirstNameLeads(name, ref, n, t);
      WhereMembers(NotNamed(name, n), t);
      SortedTail(ByName(name, ref), Where(Named(name, n), t), rest);
      assert n !in names[1..] by {
        BeforeIsAsymmetric(n, n);
      }
      SortedIsInTurn(name, ref, names[1..], rest);
      InTurnWithout(name, names[1..], n, t);
    }
  }

  lemma SortedTail<T>(less: (T, T) -> bool, a: seq<T>, b: seq<T>)
    requires Sorted(less, a + b)
    ensures Sorted(less, b)
  {
    forall i, j | 0 <= i < j < |b| ensures !less(b[j], b[i]) {
      assert b[i] == (a + b)[|a| + i] && b[j] == (a + b)[|a| + j];
    }
  }
}

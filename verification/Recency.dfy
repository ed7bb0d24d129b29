// Least-recently-used bookkeeping shared by every bounded container of the service layer. Each of them stamps an
// item with a growing tick whenever it is stored or used, and evicts the item with the smallest stamp. The meaning of
// the stamps is a list of keys, oldest first.
module Recency {

  type Ticks = map<string, nat>

  ghost predicate Distinct(used: Ticks) {
    forall a, b | a in used && b in used && a != b :: used[a] != used[b]
  }

  // Every stamp was handed out by a counter that now reads tick.
  ghost predicate Bounded(used: Ticks, tick: nat) {
    forall k | k in used :: used[k] <= tick
  }

  ghost predicate Oldest(used: Ticks, k: string) {
    k in used && forall j | j in used :: used[k] <= used[j]
  }

  // The stamps of used describe the recency list order, oldest first.
  ghost predicate Describes(used: Ticks, order: seq<string>) {
    && (forall k :: k in used <==> k in order)
    && (forall i, j | 0 <= i < j < |order| :: used[order[i]] < used[order[j]])
  }

  function Without(order: seq<string>, k: string): (r: seq<string>)
    ensures forall x :: x in r <==> x in order && x != k
  {
    if order == [] then []
    else if order[0] == k then Without(order[1..], k)
    else [order[0]] + Without(order[1..], k)
  }

  lemma {:induction false} WithoutAbsent(order: seq<string>, k: string)
    requires k !in order
    ensures Without(order, k) == order
  {
    if order != [] {
      WithoutAbsent(order[1..], k);
    }
  }

  /* ---- the stamps refine the list ---- */

  lemma {:induction false} WithoutKeepsAscending(used: Ticks, order: seq<string>, k: string)
    requires forall x | x in order :: x in used
    requires forall i, j | 0 <= i < j < |order| :: used[order[i]] < used[order[j]]
    ensures forall x | x in Without(order, k) :: x in used
    ensures forall i, j | 0 <= i < j < |Without(order, k)| :: used[Without(order, k)[i]] < used[Without(order, k)[j]]
  {
    if order != [] {
      var tail := order[1..];
      WithoutKeepsAscending(used, tail, k);
      var rest := Without(tail, k);
      assert forall x | x in rest :: used[order[0]] < used[x] by {
        forall x | x in rest ensures used[order[0]] < used[x] {
          assert x in tail;
          var i :| 0 <= i < |tail| && tail[i] == x;
          assert order[i + 1] == x;
        }
      }
    }
  }

  // Stamping an item, new or already held, moves it to the young end of the list.
  lemma StampMovesToYoungEnd(used: Ticks, order: seq<string>, k: string, tick: nat)
    requires Describes(used, order) && Bounded(used, tick)
    ensures Describes(used[k := tick + 1], Without(order, k) + [k])
    ensures Distinct(used) ==> Distinct(used[k := tick + 1])
  {
    WithoutKeepsAscending(used, order, k);
    var now, rest := used[k := tick + 1], Without(order, k) + [k];
    forall x ensures x in now <==> x in rest {
      assert x in rest <==> x in Without(order, k) || x == k;
    }
    forall i, j | 0 <= i < j < |rest| ensures now[rest[i]] < now[rest[j]] {
      assert rest[i] in Without(order, k);
    }
  }

  lemma NewStampAppends(used: Ticks, order: seq<string>, k: string, tick: nat)
    requires Describes(used, order) && Bounded(used, tick) && Distinct(used) && k !in used
    ensures Describes(used[k := tick + 1], order + [k])
    ensures Distinct(used[k := tick + 1]) && Bounded(used[k := tick + 1], tick + 1)
  {
    WithoutAbsent(order, k);
    StampMovesToYoungEnd(used, order, k, tick);
  }

  // The item an eviction picks is the head of the list, and evicting it leaves the tail.
  lemma EvictingDropsTheHead(used: Ticks, order: seq<string>, k: string)
    requires Describes(used, order) && Oldest(used, k)
    ensures order != [] && order[0] == k
    ensures Describes(used - {k}, order[1..])
  {
    assert k in order;
    var i :| 0 <= i < |order| && order[i] == k;
    assert order[0] in order && order[0] in used;
    assert i == 0;
    forall x ensures x in used - {k} <==> x in order[1..] {
      if x in order[1..] {
        var j :| 0 <= j < |order[1..]| && order[1..][j] == x;
        assert order[j + 1] == x && x in order;
      }
      if x in used && x != k {
        var j :| 0 <= j < |order| && order[j] == x;
        assert order[1..][j - 1] == x;
      }
    }
  }

  lemma HeadIsOldest(used: Ticks, order: seq<string>)
    requires Describes(used, order) && order != []
    ensures Oldest(used, order[0])
  {
    assert order[0] in order;
    forall j | j in used ensures used[order[0]] <= used[j] {
      assert j in order;
      var i :| 0 <= i < |order| && order[i] == j;
    }
  }

  lemma {:induction false} DescribedListLength(used: Ticks, order: seq<string>)
    requires Describes(used, order)
    ensures |used| == |order|
    decreases |order|
  {
    if order != [] {
      var k := order[0];
      HeadIsOldest(used, order);
      EvictingDropsTheHead(used, order, k);
      DescribedListLength(used - {k}, order[1..]);
      assert used.Keys == (used - {k}).Keys + {k};
    } else {
      assert used.Keys == {};
    }
  }

  /* ---- trimming to a limit ---- */

  // The keys that survive trimming a recency list to max: its youngest max keys.
  function Youngest(order: seq<string>, max: nat): (r: seq<string>) {
    if |order| <= max then order else order[|order| - max..]
  }

  // The keys used after k was.
  ghost function Younger(used: Ticks, k: string): set<string>
    requires k in used
  {
    set j | j in used && used[k] < used[j]
  }

  // Trimming without a list: a key survives when fewer than max keys were used after it.
  ghost predicate Survives(used: Ticks, max: nat, k: string) {
    k in used && |Younger(used, k)| < max
  }

  lemma YoungerByOne(used: Ticks, order: seq<string>, i: nat)
    requires Describes(used, order) && i + 1 < |order|
    ensures order[i] in used && order[i + 1] in used
    ensures Younger(used, order[i]) == Younger(used, order[i + 1]) + {order[i + 1]}
  {
    assert order[i] in order && order[i + 1] in order;
    forall j | j in Younger(used, order[i]) ensures j in Younger(used, order[i + 1]) + {order[i + 1]} {
      assert j in order;
      var p :| 0 <= p < |order| && order[p] == j;
    }
  }

  lemma {:induction false} YoungerCount(used: Ticks, order: seq<string>, i: nat)
    requires Describes(used, order) && i < |order|
    ensures order[i] in used && |Younger(used, order[i])| == |order| - 1 - i
    decreases |order| - i
  {
    assert order[i] in order;
    if i + 1 == |order| {
      forall j | j in used ensures used[j] <= used[order[i]] {
        assert j in order;
        var p :| 0 <= p < |order| && order[p] == j;
      }
      assert Younger(used, order[i]) == {};
    } else {
      YoungerByOne(used, order, i);
      YoungerCount(used, order, i + 1);
    }
  }

  lemma SamePlace(used: Ticks, a: seq<string>, b: seq<string>, i: nat)
    requires Describes(used, a) && Describes(used, b) && |a| == |b| && i < |a|
    ensures a[i] == b[i]
  {
    YoungerCount(used, a, i);
    assert a[i] in b;
    var j :| 0 <= j < |b| && b[j] == a[i];
    YoungerCount(used, b, j);
  }

  // Distinct stamps determine the list, so nothing about the container depends on the order its map is walked in.
  lemma DescribedListIsUnique(used: Ticks, a: seq<string>, b: seq<string>)
    requires Describes(used, a) && Describes(used, b)
    ensures a == b
  {
    DescribedListLength(used, a);
    DescribedListLength(used, b);
    forall i | 0 <= i < |a| ensures a[i] == b[i] {
      SamePlace(used, a, b, i);
    }
  }

  lemma SurvivorsAreTheYoungest(used: Ticks, order: seq<string>, max: nat, k: string)
    requires Describes(used, order)
    ensures Survives(used, max, k) <==> k in Youngest(order, max)
  {
    var young := Youngest(order, max);
    var d := |order| - |young|;
    if k in young {
      var p :| 0 <= p < |young| && young[p] == k;
      assert order[d + p] == k;
      YoungerCount(used, order, d + p);
    }
    if Survives(used, max, k) {
      assert k in order;
      var i :| 0 <= i < |order| && order[i] == k;
      YoungerCount(used, order, i);
      assert young[i - d] == k;
    }
  }

  // Losing the oldest of more than max keys changes nothing about who survives.
  lemma SurvivesWithoutTheOldest(used: Ticks, max: nat, k: string, j: string)
    requires Distinct(used) && Oldest(used, k) && |used| > max
    ensures Survives(used, max, j) <==> Survives(used - {k}, max, j)
  {
    if j == k {
      assert Younger(used, k) == used.Keys - {k};
    } else if j in used {
      assert Younger(used, j) == Younger(used - {k}, j);
    }
  }

  lemma NewestSurvives(order: seq<string>, k: string, max: nat)
    requires max > 0
    ensures k in Youngest(order + [k], max)
  {
    var list := Youngest(order + [k], max);
    assert list[|list| - 1] == k;
  }

  // All that survive trimming to max.
  ghost function Keepers(used: Ticks, max: nat): set<string> {
    set k | k in used && Survives(used, max, k)
  }

  lemma KeepersWithoutTheOldest(used: Ticks, max: nat, k: string)
    requires Distinct(used) && Oldest(used, k) && |used| > max
    ensures Keepers(used - {k}, max) == Keepers(used, max)
  {
    forall j ensures Survives(used, max, j) <==> Survives(used - {k}, max, j) {
      SurvivesWithoutTheOldest(used, max, k, j);
    }
  }

  lemma KeepersWithinLimit(used: Ticks, max: nat)
    requires |used| <= max
    ensures Keepers(used, max) == used.Keys
  {
    forall k | k in used ensures Survives(used, max, k) {
      assert Younger(used, k) <= used.Keys - {k};
      SmallerSet(Younger(used, k), used.Keys - {k});
    }
  }

  lemma {:induction false} SmallerSet(a: set<string>, b: set<string>)
    requires a <= b
    ensures |a| <= |b|
  {
    if a != {} {
      var x :| x in a;
      SmallerSet(a - {x}, b - {x});
    }
  }

  lemma {:induction false} SetOfSeq(xs: seq<string>)
    ensures |set x | x in xs| <= |xs|
  {
    if xs != [] {
      SetOfSeq(xs[1..]);
      assert (set x | x in xs) == (set x | x in xs[1..]) + {xs[0]};
    } else {
      assert (set x | x in xs) == {};
    }
  }

  lemma KeepersAreYoung(used: Ticks, order: seq<string>, max: nat)
    requires Describes(used, order)
    ensures forall k :: k in Keepers(used, max) <==> k in Youngest(order, max)
    ensures |Keepers(used, max)| <= max
  {
    var young := Youngest(order, max);
    forall k ensures k in Keepers(used, max) <==> k in young {
      SurvivorsAreTheYoungest(used, order, max, k);
    }
    assert Keepers(used, max) == set k | k in young;
    SetOfSeq(young);
  }

  // Storing something new and trimming keeps the limit and never loses what was just stored; below the limit nothing
  // is lost.
  lemma KeepersAfterNew(used: Ticks, k: string, tick: nat, max: nat)
    requires Distinct(used) && Bounded(used, tick) && k !in used && max > 0
    ensures k in Keepers(used[k := tick + 1], max) && |Keepers(used[k := tick + 1], max)| <= max
    ensures |used| < max ==> Keepers(used[k := tick + 1], max) == used.Keys + {k}
  {
    var stamps := used[k := tick + 1];
    NewIsAKeeper(used, k, tick, max);
    if |used| < max {
      assert stamps.Keys == used.Keys + {k};
      KeepersWithinLimit(stamps, max);
    }
  }

  lemma NewIsAKeeper(used: Ticks, k: string, tick: nat, max: nat)
    requires Distinct(used) && Bounded(used, tick) && k !in used && max > 0
    ensures k in Keepers(used[k := tick + 1], max) && |Keepers(used[k := tick + 1], max)| <= max
  {
    var order := ListExists(used);
    NewStampAppends(used, order, k, tick);
    NewestSurvives(order, k, max);
    KeepersAreYoung(used[k := tick + 1], order + [k], max);
  }

  function Only<T>(m: map<string, T>, keys: set<string>): map<string, T> {
    map k | k in m && k in keys :: m[k]
  }

  lemma OnlyWithout<T>(m: map<string, T>, keys: set<string>, k: string)
    ensures Only(m, keys) - {k} == Only(m, keys - {k})
  {
  }

  // One turn of an eviction loop, whatever it holds under its keys.
  lemma OldestGoes<T>(all: map<string, T>, stamps: Ticks, kept: set<string>, max: nat, k: string)
    requires kept <= all.Keys == stamps.Keys && Distinct(stamps) && |kept| > max && Oldest(Only(stamps, kept), k)
    ensures k in kept && Only(all, kept) - {k} == Only(all, kept - {k})
    ensures Only(stamps, kept) - {k} == Only(stamps, kept - {k})
    ensures Keepers(Only(stamps, kept - {k}), max) == Keepers(Only(stamps, kept), max)
  {
    OnlyWithout(all, kept, k);
    OnlyWithout(stamps, kept, k);
    assert Only(stamps, kept).Keys == kept && |Only(stamps, kept)| == |Only(stamps, kept).Keys|;
    KeepersWithoutTheOldest(Only(stamps, kept), max, k);
  }

  lemma SuffixDescribes(used: Ticks, order: seq<string>, d: nat, kept: Ticks)
    requires Describes(used, order) && d <= |order|
    requires forall k :: k in kept <==> k in order[d..]
    requires forall k | k in kept :: k in used && kept[k] == used[k]
    ensures Describes(kept, order[d..])
  {
    var young := order[d..];
    forall i, j | 0 <= i < j < |young| ensures kept[young[i]] < kept[young[j]] {
      assert young[i] == order[d + i] && young[j] == order[d + j];
      assert young[i] in young && young[j] in young;
    }
  }

  // Trimming the stamps trims the list.
  lemma TrimmingDescribes(used: Ticks, order: seq<string>, max: nat, kept: Ticks)
    requires Describes(used, order) && kept.Keys == Keepers(used, max)
    requires forall k | k in kept :: k in used && kept[k] == used[k]
    ensures Describes(kept, Youngest(order, max))
  {
    KeepersAreYoung(used, order, max);
    var d := if |order| <= max then 0 else |order| - max;
    assert Youngest(order, max) == order[d..];
    SuffixDescribes(used, order, d, kept);
  }

  // The scan every eviction makes: walk the map in whatever order it comes, and keep the key with the smallest stamp.
  // The empty string stands for "none seen yet", so no item may be keyed by it.
  method OldestKey(used: Ticks) returns (oldest: string)
    requires "" !in used
    ensures used == map[] ==> oldest == ""
    ensures used != map[] ==> Oldest(used, oldest)
  {
    oldest := "";
    var at: nat := 0;
    var left := used.Keys;
    while left != {}
      invariant left <= used.Keys
      invariant oldest == "" ==> left == used.Keys
      invariant oldest != "" ==> oldest in used && at == used[oldest]
      invariant oldest != "" ==> forall j | j in used && j !in left :: at <= used[j]
      decreases left
    {
      var k :| k in left;
      if oldest == "" || used[k] < at {
        oldest, at := k, used[k];
      }
      left := left - {k};
    }
    assert oldest == "" ==> used.Keys == {};
  }

  lemma {:induction false} OldestExists(used: Ticks)
    requires used != map[]
    ensures exists k :: Oldest(used, k)
    decreases |used|
  {
    assert used.Keys != {};
    var x :| x in used;
    var rest := used - {x};
    if rest == map[] {
      assert forall j | j in used :: j == x by {
        forall j | j in used ensures j == x { assert j !in rest; }
      }
      assert Oldest(used, x);
    } else {
      assert rest.Keys == used.Keys - {x};
      OldestExists(rest);
      var y :| Oldest(rest, y);
      var k := if used[x] <= used[y] then x else y;
      forall j | j in used ensures used[k] <= used[j] {
        if j != x { assert j in rest; }
      }
      assert Oldest(used, k);
    }
  }

  // Distinct stamps describe some recency list.
  lemma {:induction false} ListExists(used: Ticks) returns (order: seq<string>)
    requires Distinct(used)
    ensures Describes(used, order)
    decreases |used|
  {
    if used == map[] {
      order := [];
    } else {
      OldestExists(used);
      var k :| Oldest(used, k);
      var rest := used - {k};
      assert rest.Keys == used.Keys - {k};
      var tail := ListExists(rest);
      order := [k] + tail;
      forall i | 0 <= i < |order| ensures order[i] in used {
        if i > 0 { assert order[i] == tail[i - 1] && tail[i - 1] in rest; }
      }
      forall i, j | 0 <= i < j < |order| ensures used[order[i]] < used[order[j]] {
        assert order[j] == tail[j - 1] && tail[j - 1] in rest;
        if i > 0 { assert order[i] == tail[i - 1] && tail[i - 1] in rest; }
      }
    }
  }
}

// Paging through listings that change between calls (service/project.go, service/snapshot.go). A page token names a
// place in the order of names, not a position, in one of two forms: the first name of the next page, or the last name
// of this one.
module Paging {
  import opened Sorting

  datatype TokenForm = FirstOfNext | ResumeAfter

  const DEFAULT_PROJECT_PAGE := 50
  const MAX_PROJECT_PAGE := 200
  const MAX_SNAPSHOT_PAGE := 100

  function ProjectPageSize(asked: int): (size: nat)
    ensures 0 < size <= MAX_PROJECT_PAGE
  {
    if asked <= 0 then DEFAULT_PROJECT_PAGE else if asked > MAX_PROJECT_PAGE then MAX_PROJECT_PAGE else asked
  }

  function SnapshotPageSize(asked: int): (size: nat)
    ensures 0 < size <= MAX_SNAPSHOT_PAGE
  {
    if asked <= 0 || asked > MAX_SNAPSHOT_PAGE then MAX_SNAPSHOT_PAGE else asked
  }

  // Whether name is on the pages a token leads to.
  predicate Ahead(form: TokenForm, token: string, name: string) {
    token == "" || match form
                   case FirstOfNext => !Before(name, token)
                   case ResumeAfter => Before(token, name)
  }

  function Start(form: TokenForm, token: string, names: seq<string>): (i: nat)
    ensures i <= |names|
  {
    if names == [] || Ahead(form, token, names[0]) then 0 else 1 + Start(form, token, names[1..])
  }

  datatype Page = Page(names: seq<string>, next: string)

  function PageOf(form: TokenForm, size: nat, token: string, names: seq<string>): Page {
    var start := Start(form, token, names);
    var end := if start + size < |names| then start + size else |names|;
    Page(names[start..end],
         if end == |names| then ""
         else if form.FirstOfNext? then names[end]
         else if end > 0 then names[end - 1] else "")
  }

  /* ---- the two listings ---- */

  // Go's sort.Search over a sorted list of names, for the first that is ahead of the token.
  method SearchNames(form: TokenForm, token: string, names: seq<string>) returns (i: nat)
    requires Ascending(names)
    ensures i == Start(form, token, names)
  {
    i := 0;
    var j := |names|;
    while i < j
      invariant i <= j <= |names|
      invariant forall k | 0 <= k < i :: !Ahead(form, token, names[k])
      invariant forall k | j <= k < |names| :: Ahead(form, token, names[k])
    {
      var h := (i + j) / 2;
      if !Ahead(form, token, names[h]) {
        AheadIsAscending(form, token, names, h);
        i := h + 1;
      } else {
        AheadIsAscending(form, token, names, h);
        j := h;
      }
    }
    StartIsFirst(form, token, names, i);
  }

  lemma AheadIsAscending(form: TokenForm, token: string, names: seq<string>, h: nat)
    requires Ascending(names) && h < |names|
    ensures Ahead(form, token, names[h]) ==> forall k | h <= k < |names| :: Ahead(form, token, names[k])
    ensures !Ahead(form, token, names[h]) ==> forall k | 0 <= k <= h :: !Ahead(form, token, names[k])
  {
    StringsAreOrdered();
    forall k | 0 <= k < |names| && k != h
      ensures k > h && Ahead(form, token, names[h]) ==> Ahead(form, token, names[k])
      ensures k < h && !Ahead(form, token, names[h]) ==> !Ahead(form, token, names[k])
    {
      assert k > h ==> Before(names[h], names[k]);
      assert k < h ==> Before(names[k], names[h]);
      if token != "" {
        BeforeIsAsymmetric(names[k], names[h]);
        BeforeIsAsymmetric(token, names[h]);
        BeforeIsAsymmetric(token, names[k]);
      }
    }
  }

  lemma {:induction false} StartIsFirst(form: TokenForm, token: string, names: seq<string>, i: nat)
    requires i <= |names| && (forall k | 0 <= k < i :: !Ahead(form, token, names[k]))
    requires i < |names| ==> Ahead(form, token, names[i])
    ensures Start(form, token, names) == i
  {
    if i > 0 {
      StartIsFirst(form, token, names[1..], i - 1);
    }
  }

  // A page of a project or design listing.
  method Paginate(names: seq<string>, pageSize: int, token: string) returns (page: Page)
    requires Ascending(names)
    ensures page == PageOf(FirstOfNext, ProjectPageSize(pageSize), token, names)
  {
    var size := ProjectPageSize(pageSize);
    var start := 0;
    if token != "" {
      start := SearchNames(FirstOfNext, token, names);
    }
    var end := if start + size < |names| then start + size else |names|;
    page := Page(names[start..end], if end < |names| then names[end] else "");
  }

  // A page of a snapshot listing.
  method ListSnapshots(names: seq<string>, pageSize: int, token: string) returns (page: Page)
    requires Ascending(names)
    ensures page == PageOf(ResumeAfter, SnapshotPageSize(pageSize), token, names)
  {
    var start := 0;
    if token != "" {
      start := SearchNames(ResumeAfter, token, names);
    }
    var size := SnapshotPageSize(pageSize);
    var end := if start + size < |names| then start + size else |names|;
    page := Page(names[start..end], if end < |names| then names[end - 1] else "");
  }

  /* ---- one page ---- */

  lemma {:induction false} StartSplits(form: TokenForm, token: string, names: seq<string>)
    requires Ascending(names)
    ensures var i := Start(form, token, names);
            && (forall k | 0 <= k < i :: !Ahead(form, token, names[k]))
            && (forall k | i <= k < |names| :: Ahead(form, token, names[k]))
  {
    if names != [] {
      if Ahead(form, token, names[0]) {
        AheadIsAscending(form, token, names, 0);
      } else {
        StartSplits(form, token, names[1..]);
      }
    }
  }

  // Where a page starts and ends in its list.
  lemma PageCuts(form: TokenForm, size: nat, token: string, names: seq<string>, start: nat) returns (end: nat)
    requires size > 0 && "" !in names
    requires start == Start(form, token, names)
    ensures start <= end <= |names| && PageOf(form, size, token, names).names == names[start..end]
    ensures PageOf(form, size, token, names).next == "" ==> end == |names|
    ensures PageOf(form, size, token, names).next != "" ==>
              && start < end < |names|
              && PageOf(form, size, token, names).next == (if form.FirstOfNext? then names[end] else names[end - 1])
  {
    end := if start + size < |names| then start + size else |names|;
    assert end < |names| ==> names[end] in names && names[end - 1] in names;
  }

  // Of the names from one place in the list to another, exactly those ahead of the token and not of the next one.
  lemma CutsMeanRange(form: TokenForm, token: string, next: string, names: seq<string>, start: nat, end: nat, k: nat)
    requires Ascending(names) && "" !in names && start <= end <= |names| && k < |names|
    requires Ahead(form, token, names[k]) <==> start <= k
    requires next == "" ==> end == |names|
    requires next != "" ==> 0 < end < |names| && next == if form.FirstOfNext? then names[end] else names[end - 1]
    ensures Ahead(form, token, names[k]) && (next == "" || !Ahead(form, next, names[k])) <==> start <= k < end
  {
    if next != "" {
      NextCuts(form, names, end, k);
    }
  }

  lemma InSlice(names: seq<string>, start: nat, end: nat, x: string)
    requires start <= end <= |names|
    ensures x in names[start..end] <==> exists k :: start <= k < end && names[k] == x
  {
    if x in names[start..end] {
      var k :| 0 <= k < end - start && names[start..end][k] == x;
      assert names[start + k] == x;
    }
    if k :| start <= k < end && names[k] == x {
      assert names[start..end][k - start] == x;
    }
  }

  // A page holds exactly the names of the list between its token and the next one.
  lemma PageIsARange(form: TokenForm, size: nat, token: string, names: seq<string>, x: string)
    requires Ascending(names) && size > 0 && "" !in names
    ensures var p := PageOf(form, size, token, names);
            x in p.names <==> x in names && Ahead(form, token, x) && (p.next == "" || !Ahead(form, p.next, x))
  {
    var next := PageOf(form, size, token, names).next;
    var start := Start(form, token, names);
    var end := PageCuts(form, size, token, names, start);
    StartSplits(form, token, names);
    InSlice(names, start, end, x);
    forall k | 0 <= k < |names|
      ensures Ahead(form, token, names[k]) && (next == "" || !Ahead(form, next, names[k])) <==> start <= k < end
    {
      CutsMeanRange(form, token, next, names, start, end, k);
    }
  }

  lemma PageAdvances(form: TokenForm, size: nat, token: string, names: seq<string>)
    requires Ascending(names) && size > 0 && "" !in names
    ensures Ascending(PageOf(form, size, token, names).names)
    ensures PageOf(form, size, token, names).next != "" ==>
              PageOf(form, size, token, names).names != [] && Ahead(form, token, PageOf(form, size, token, names).next)
  {
    var start := Start(form, token, names);
    var end := PageCuts(form, size, token, names, start);
    StartSplits(form, token, names);
  }

  lemma NextCuts(form: TokenForm, names: seq<string>, end: nat, k: nat)
    requires Ascending(names) && "" !in names && 0 < end < |names| && k < |names|
    ensures var next := if form.FirstOfNext? then names[end] else names[end - 1];
            next != "" && (k < end <==> !Ahead(form, next, names[k]))
  {
    assert names[end] in names && names[end - 1] in names;
    BeforeIsAsymmetric(names[k], names[end]);
    BeforeIsAsymmetric(names[k], names[end - 1]);
    assert k < end ==> Before(names[k], names[end]);
    assert k > end ==> Before(names[end], names[k]);
    assert k < end - 1 ==> Before(names[k], names[end - 1]);
    assert k > end - 1 ==> Before(names[end - 1], names[k]);
  }

  /* ---- following tokens ---- */

  // One call of a listing: the names there were, and what was answered.
  datatype Call = Call(names: seq<string>, size: nat, token: string, page: Page)

  ghost predicate Answered(form: TokenForm, c: Call) {
    Ascending(c.names) && "" !in c.names && c.size > 0 && c.page == PageOf(form, c.size, c.token, c.names)
  }

  // Calls that follow tokens from the first page on, over a list that may be a different one at each call.
  ghost predicate Follows(form: TokenForm, calls: seq<Call>) {
    && calls != [] && calls[0].token == ""
    && (forall i | 0 <= i < |calls| :: Answered(form, calls[i]))
    && (forall i, j | 0 <= i < |calls| && j == i + 1 < |calls| :: calls[j].token == calls[i].page.next != "")
  }

  function AllPages(calls: seq<Call>): seq<string> {
    if calls == [] then [] else AllPages(calls[..|calls| - 1]) + calls[|calls| - 1].page.names
  }

  // A name that has been passed when the next page starts at token.
  predicate Passed(form: TokenForm, token: string, x: string) {
    token == "" || !Ahead(form, token, x)
  }

  lemma AheadBeforePassed(form: TokenForm, token: string, x: string, y: string)
    requires token != "" && !Ahead(form, token, x) && Ahead(form, token, y)
    ensures Before(x, y)
  {
    BeforeIsAsymmetric(x, y);
    BeforeIsAsymmetric(x, token);
    BeforeIsAsymmetric(y, token);
    if Before(y, x) {
      if form.FirstOfNext? {
        if token != y {
          BeforeIsTransitive(token, y, x);
        }
      } else {
        BeforeIsTransitive(token, y, x);
      }
    }
  }

  lemma AheadStays(form: TokenForm, token: string, next: string, x: string)
    requires token != "" && Ahead(form, token, next) && next != "" && !Ahead(form, token, x)
    ensures !Ahead(form, next, x)
  {
    AheadBeforePassed(form, token, x, next);
    BeforeIsAsymmetric(x, next);
  }

  ghost predicate InAll(calls: seq<Call>, x: string) {
    forall c | c in calls :: x in c.names
  }

  ghost predicate InSome(calls: seq<Call>, x: string) {
    exists c :: c in calls && x in c.names
  }

  lemma LastCall(calls: seq<Call>)
    requires calls != []
    ensures calls == calls[..|calls| - 1] + [calls[|calls| - 1]]
    ensures forall x :: InAll(calls, x) <==> InAll(calls[..|calls| - 1], x) && x in calls[|calls| - 1].names
    ensures forall x | InSome(calls[..|calls| - 1], x) || x in calls[|calls| - 1].names :: InSome(calls, x)
  {
    var front, last := calls[..|calls| - 1], calls[|calls| - 1];
    assert calls == front + [last];
    assert forall c :: c in calls <==> c in front || c == last;
  }

  // After each page, the pages so far are strictly ascending, have passed everything they hold, and hold every name they
  // passed that was there all along.
  ghost predicate SoFar(form: TokenForm, calls: seq<Call>, next: string) {
    && Ascending(AllPages(calls))
    && (forall x | x in AllPages(calls) :: Passed(form, next, x) && InSome(calls, x))
    && (forall x | InAll(calls, x) && Passed(form, next, x) :: x in AllPages(calls))
  }

  lemma FollowsFront(form: TokenForm, calls: seq<Call>)
    requires Follows(form, calls) && |calls| > 1
    ensures Follows(form, calls[..|calls| - 1])
    ensures calls[|calls| - 1].token == calls[|calls| - 2].page.next != ""
  {
  }

  lemma SoFarGrows(form: TokenForm, front: seq<Call>, last: Call)
    requires front != [] && SoFar(form, front, last.token) && last.token != "" && Answered(form, last)
    ensures SoFar(form, front + [last], last.page.next)
  {
    var calls, p := front + [last], last.page;
    assert calls[..|calls| - 1] == front;
    var before, all := AllPages(front), AllPages(front + [last]);
    LastCall(calls);
    PageAdvances(form, last.size, last.token, last.names);
    forall x ensures x in p.names <==> x in last.names && Ahead(form, last.token, x) && Passed(form, p.next, x) {
      PageIsARange(form, last.size, last.token, last.names, x);
    }
    forall i, j | 0 <= i < j < |all| ensures Before(all[i], all[j]) {
      if i < |before| <= j {
        assert before[i] in before && p.names[j - |before|] in p.names;
        AheadBeforePassed(form, last.token, all[i], all[j]);
      }
    }
    forall x | x in all ensures Passed(form, p.next, x) && InSome(calls, x) {
      if x in before && p.next != "" {
        AheadStays(form, last.token, p.next, x);
      }
    }
    forall x | InAll(calls, x) && Passed(form, p.next, x) ensures x in all {
      assert Ahead(form, last.token, x) || Passed(form, last.token, x);
    }
  }

  lemma {:induction false} PagesSoFar(form: TokenForm, calls: seq<Call>)
    requires Follows(form, calls)
    ensures SoFar(form, calls, calls[|calls| - 1].page.next)
    decreases |calls|
  {
    var last := calls[|calls| - 1];
    if |calls| == 1 {
      FirstPage(form, last);
      assert calls == [last];
    } else {
      FollowsFront(form, calls);
      PagesSoFar(form, calls[..|calls| - 1]);
      SoFarGrows(form, calls[..|calls| - 1], last);
      LastCall(calls);
    }
  }

  lemma FirstPage(form: TokenForm, c: Call)
    requires c.token == "" && Answered(form, c)
    ensures SoFar(form, [c], c.page.next)
  {
    assert [c][..0] == [];
    assert AllPages([c]) == [] + c.page.names == c.page.names;
    LastCall([c]);
    PageAdvances(form, c.size, "", c.names);
    forall x ensures x in c.page.names <==> x in c.names && Passed(form, c.page.next, x) {
      PageIsARange(form, c.size, "", c.names, x);
    }
    assert forall x | InAll([c], x) :: x in c.names by {
      assert c in [c];
    }
  }

  // Following tokens to the end, whatever is added and removed meanwhile, gives names strictly ascending, so none twice;
  // every name there throughout; and no name that was never there.
  lemma PagesMissNothing(form: TokenForm, calls: seq<Call>)
    requires Follows(form, calls) && calls[|calls| - 1].page.next == ""
    ensures Ascending(AllPages(calls))
    ensures forall x | InAll(calls, x) :: x in AllPages(calls)
    ensures forall x | x in AllPages(calls) :: InSome(calls, x)
  {
    PagesSoFar(form, calls);
  }

  // A list that does not change is reproduced whole.
  lemma UnchangedListIsWhole(form: TokenForm, calls: seq<Call>, names: seq<string>)
    requires Follows(form, calls) && calls[|calls| - 1].page.next == ""
    requires forall c | c in calls :: c.names == names
    ensures AllPages(calls) == names
  {
    PagesMissNothing(form, calls);
    assert calls[0] in calls && Answered(form, calls[0]);
    forall x ensures x in AllPages(calls) <==> x in names {
      assert x in names ==> InAll(calls, x);
    }
    AscendingIsUnique(AllPages(calls), names);
  }
}
